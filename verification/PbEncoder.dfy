/** The encoder: it emits exactly what PbCodec says, on counting and on writing streams alike. A struct whose
    cells are not those of the descriptor cannot occur in C; here it is refused. */
module PbEncoder {
  import opened Bytes
  import opened PbVarint
  import opened PbTypes
  import opened PbCodec
  import opened PbIterator
  import opened PbOutput

  lemma CatAssoc(p: seq<byte>, e: Option<seq<byte>>, rest: Option<seq<byte>>)
    ensures Cat(Some(p), Cat(e, rest)) == if e.Some? then Cat(Some(p + e.value), rest) else None
  {
    if e.Some? && rest.Some? {
      assert p + (e.value + rest.value) == (p + e.value) + rest.value;
    }
  }

  /** p is out; the next piece went well. */
  lemma Grown(a: View, p: seq<byte>, b: View, e: seq<byte>, c: View)
    requires Emitted(a, Some(p), true, b) && Emitted(b, Some(e), true, c)
    ensures Emitted(a, Some(p + e), true, c)
  {
    Compose(a, Some(p), b, Some(e), true, c);
  }

  /** p is out; the next piece failed, and with it the whole. */
  lemma Stuck(a: View, p: seq<byte>, b: View, e: Option<seq<byte>>, rest: Option<seq<byte>>, c: View)
    requires Emitted(a, Some(p), true, b) && Emitted(b, e, false, c)
    ensures Emitted(a, Cat(Some(p), Cat(e, rest)), false, c)
  {
    CutShort(b, e, c, rest);
    Compose(a, Some(p), b, Cat(e, rest), false, c);
  }

  lemma NothingYet(a: View)
    ensures Emitted(a, Some([]), true, a)
  {
    assert a.out + [] == a.out;
  }

  // ---- the small encoders

  method EncodeTag(s: OStream, wt: nat, tag: nat) returns (ok: bool)
    requires s.Valid() && wt < 8 && tag < TWO_TO_32
    modifies s, s.buf
    ensures s.Valid() && s.buf == old(s.buf) && Emitted(old(s.State()), Some(EncTag(wt, tag)), ok, s.State())
  {
    ok := EncodeVarint(s, 8 * tag + wt);
  }

  /** `pb_encode_string` */
  method EncodeString(s: OStream, b: seq<byte>) returns (ok: bool)
    requires s.Valid() && |b| < TWO_TO_64
    modifies s, s.buf
    ensures s.Valid() && s.buf == old(s.buf) && Emitted(old(s.State()), Some(Prefixed(b)), ok, s.State())
  {
    hide Encode;
    ghost var a := s.State();
    ok := EncodeVarint(s, |b|);
    ghost var mid := s.State();
    if !ok {
      CutShort(a, Some(Encode(|b|)), mid, Some(b));
      return;
    }
    ok := s.Write(b, |b|);
    Compose(a, Some(Encode(|b|)), mid, Some(b), ok, s.State());
  }

  /** `pb_encode_fixed32` and `pb_encode_fixed64`: n bytes, lowest first. */
  method EncodeFixed(s: OStream, value: nat, n: nat) returns (ok: bool)
    requires s.Valid()
    modifies s, s.buf
    ensures s.Valid() && s.buf == old(s.buf) && Emitted(old(s.State()), Some(LittleEndian(value, n)), ok, s.State())
  {
    var bytes: seq<byte>, v := [], value;
    for i := 0 to n
      invariant LittleEndian(value, n) == bytes + LittleEndian(v, n - i)
    {
      assert bytes + LittleEndian(v, n - i) == (bytes + [v % 256]) + LittleEndian(v / 256, n - i - 1);
      bytes, v := bytes + [v % 256], v / 256;
    }
    ok := s.Write(bytes, n);
  }

  /** The character count of `pb_enc_string`: up to a NUL or the end of the array. */
  method StringLength(s: seq<byte>, maxSize: nat) returns (size: nat)
    requires |s| <= maxSize
    ensures size == CLength(s)
  {
    size := 0;
    while size < maxSize && size < |s| && s[size] != 0
      invariant size <= |s| && CLength(s) == size + CLength(s[size..])
    {
      assert s[size..][1..] == s[size + 1..];
      size := size + 1;
    }
  }

  method EncodeScalar(s: OStream, f: Field, v: Val) returns (ok: bool)
    requires s.Valid()
    modifies s, s.buf
    ensures s.Valid() && s.buf == old(s.buf) && Emitted(old(s.State()), EncScalar(f, v), ok, s.State())
  {
    hide Encode, Prefixed, LittleEndian, CLength, IntSize, Word;
    ok := false;
    match (f.ltype, v)
    case (Varint, Int(i)) => if IntSize(f.dataSize) && IsInt64(i) { ok := EncodeVarint(s, Unsigned64(i)); }
    case (Uvarint, Int(i)) => if IntSize(f.dataSize) && 0 <= i < TWO_TO_64 { ok := EncodeVarint(s, i); }
    case (Svarint, Int(i)) => if IntSize(f.dataSize) && IsInt64(i) { ok := EncodeVarint(s, ZigZag(i)); }
    case (Fixed32, _) => ok := EncodeFixed(s, Word(v, TWO_TO_32), 4);
    case (Fixed64, _) => ok := EncodeFixed(s, Word(v, TWO_TO_64), 8);
    case (Blob, Bytes(b)) => if BYTES_HEADER + |b| <= f.dataSize { ok := EncodeString(s, b); }
    case (Text, Chars(t)) =>
      if |t| <= f.dataSize {
        var size := StringLength(t, f.dataSize);
        ok := EncodeString(s, t[..size]);
      }
    case (FixedBytes, Bytes(b)) => if |b| == f.dataSize { ok := EncodeString(s, b); }
    case _ =>
  }

  // ---- submessages: sized on a counting stream first, then written in a window of that size

  /** A length and the body it announces. */
  lemma PrefixedEmitted(a: View, n: nat, b: View, body: seq<byte>, c: View)
    requires |body| == n && Emitted(a, Some(Encode(n)), true, b) && Emitted(b, Some(body), true, c)
    ensures Emitted(a, Some(Prefixed(body)), true, c)
  {
    hide Encode;
    Compose(a, Some(Encode(n)), b, Some(body), true, c);
  }

  lemma PrefixedStuck(a: View, body: seq<byte>, ok: bool, b: View, c: View)
    requires Emitted(a, Some(Encode(|body|)), ok, b)
    requires if ok then Emitted(b, Some(body), false, c) else b == c
    ensures Emitted(a, Some(Prefixed(body)), false, c)
  {
    hide Encode;
    if ok { Compose(a, Some(Encode(|body|)), b, Some(body), false, c); }
  }

  /** What an encoded value as a whole is too large for, its prefix-and-body form is too large for. */
  lemma TooLarge(a: View, body: seq<byte>)
    requires |body| >= TWO_TO_64 > a.room
    ensures Emitted(a, Some(Prefixed(body)), false, a)
  {
    hide Encode;
  }

  /** A window on the next size bytes of a stream. */
  predicate WindowOpened(b: View, w: View, size: nat) {
    && b.writing && size <= b.room && w == View(b.out, w.beyond, size, 0, true)
    && |w.beyond| == b.room - size + |b.beyond| && b.beyond == w.beyond[b.room - size..]
  }

  /** The stream that goes on where a full window stopped. */
  predicate WindowClosed(b: View, w: View, size: nat, c: View) {
    && size <= b.room && b.room - size <= |w.beyond|
    && c == View(w.out, w.beyond[b.room - size..], b.room - size, b.written + size, true)
  }

  /** Bytes written through a window of the right size are bytes written to the stream around it. */
  lemma ThroughWindow(b: View, w: View, body: seq<byte>, w': View, c: View)
    requires WindowOpened(b, w, |body|) && Emitted(w, Some(body), true, w') && WindowClosed(b, w', |body|, c)
    ensures Emitted(b, Some(body), true, c)
  {
  }

  method EncodeSubmessage(s: OStream, d: seq<Field>, m: seq<Cell>) returns (ok: bool)
    requires s.Valid()
    modifies s, s.buf
    ensures s.Valid() && s.buf == old(s.buf)
    ensures Emitted(old(s.State()), Sized(EncFrom(d, m, 0)), ok, s.State())
    decreases d, 7
  {
    hide EncFrom, Encode, Emitted, Prefixed;
    ghost var a := s.State();
    var sizes := new OStream.Sizing();
    ok := EncodeMessage(sizes, d, m);
    if !ok {
      SizingFailed(a, EncFrom(d, m, 0), sizes.State());
      return;
    }
    Succeeded(View([], [], TWO_TO_64 - 1, 0, false), EncFrom(d, m, 0), sizes.State());
    ghost var body := EncFrom(d, m, 0).value;
    SizingWorked(body, sizes.State());
    var size := sizes.written;
    ok := EncodeVarint(s, size);
    ghost var b := s.State();
    if !ok {
      PrefixedStuck(a, body, false, b, b);
      return;
    }
    if !s.writing {
      ok := s.Write([], size);
      JustSizing(b, body, ok, s.State());
    } else {
      ok := EncodeInWindow(s, d, m, size);
    }
    if ok {
      PrefixedEmitted(a, size, b, body, s.State());
    } else {
      PrefixedStuck(a, body, true, b, s.State());
    }
  }

  lemma SizingFailed(a: View, e: Option<seq<byte>>, c: View)
    requires a.room < TWO_TO_64 && Emitted(View([], [], TWO_TO_64 - 1, 0, false), e, false, c)
    ensures Emitted(a, Sized(e), false, a)
  {
    hide Prefixed;
    if e.Some? { TooLarge(a, e.value); }
  }

  lemma SizingWorked(body: seq<byte>, c: View)
    requires Emitted(View([], [], TWO_TO_64 - 1, 0, false), Some(body), true, c)
    ensures c.written == |body| < TWO_TO_64
  {
  }

  lemma JustSizing(b: View, body: seq<byte>, ok: bool, c: View)
    requires !b.writing && ok == (|body| <= b.room)
    requires c == if ok then b.(written := b.written + |body|, room := b.room - |body|) else b
    ensures Emitted(b, Some(body), ok, c)
  {
  }

  /** The second half of `pb_encode_submessage`. The size cannot have changed since it was counted. */
  method EncodeInWindow(s: OStream, d: seq<Field>, m: seq<Cell>, size: nat) returns (ok: bool)
    requires s.Valid() && s.writing && EncFrom(d, m, 0).Some? && |EncFrom(d, m, 0).value| == size
    modifies s, s.buf
    ensures s.Valid() && s.buf == old(s.buf)
    ensures Emitted(old(s.State()), EncFrom(d, m, 0), ok, s.State())
    decreases d, 6
  {
    hide EncFrom, Emitted, WindowOpened, WindowClosed, OStream.State;
    ghost var b, body := s.State(), EncFrom(d, m, 0).value;
    StreamRoom(s);
    if s.written + size > s.maxSize {
      NoRoom(b, body);
      return false;
    }
    var window := OpenWindow(s, size);
    ghost var w := window.State();
    ok := EncodeMessage(window, d, m);
    WindowFilled(b, w, body, ok, window.State());
    FullWindow(window, size);
    StreamRoom(s);
    CloseWindow(s, window, size);
    ThroughWindow(b, w, body, window.State(), s.State());
  }

  /** The substream: same buffer and position, room for size bytes. */
  method OpenWindow(s: OStream, size: nat) returns (window: OStream)
    requires s.Valid() && s.writing && s.written + size <= s.maxSize
    ensures fresh(window) && window.Valid() && window.buf == s.buf
    ensures WindowOpened(s.State(), window.State(), size)
  {
    Suffix(s.buf[..], s.pos + size, s.maxSize - s.written - size);
    window := new OStream.Window(s.buf, s.pos, size);
  }

  /** The stream takes over where the substream stopped. It took the whole size, so "submsg size changed"
      is never reported. */
  method CloseWindow(s: OStream, window: OStream, size: nat)
    requires s != window && s.Valid() && s.writing && window.Valid() && window.writing && s.buf == window.buf
    requires s.written + size <= s.maxSize && window.maxSize == window.written == size
    requires window.pos + (s.maxSize - s.written - size) <= s.buf.Length
    modifies s
    ensures s.Valid() && s.buf == old(s.buf)
    ensures WindowClosed(old(s.State()), window.State(), size, s.State())
  {
    ghost var rest := s.maxSize - s.written - size;
    Suffix(s.buf[..], window.pos, rest);
    s.written := s.written + window.written;
    s.pos := window.pos;
    assert window.written == size;
  }

  lemma FullWindow(window: OStream, size: nat)
    requires window.Valid() && window.State().written == size && window.State().room == 0 && window.State().writing
    ensures window.writing && window.maxSize == window.written == size
    ensures window.pos + |window.State().beyond| == window.buf.Length
  {
  }

  lemma StreamRoom(s: OStream)
    requires s.Valid()
    ensures s.State().room == s.maxSize - s.written && s.State().written == s.written && s.State().writing == s.writing
  {
  }

  lemma NoRoom(b: View, body: seq<byte>)
    requires |body| > b.room
    ensures Emitted(b, Some(body), false, b)
  {
  }

  lemma WindowFilled(b: View, w: View, body: seq<byte>, ok: bool, w': View)
    requires WindowOpened(b, w, |body|) && Emitted(w, Some(body), ok, w')
    ensures ok && w'.written == |body| && w'.room == 0 && w'.writing && b.room - |body| <= |w'.beyond|
  {
  }

  lemma Suffix(b: seq<byte>, from: nat, n: nat)
    requires from + n <= |b|
    ensures b[from..][n..] == b[from + n..]
  {
  }

  method EncodeValue(s: OStream, f: Field, v: Val) returns (ok: bool)
    requires s.Valid()
    modifies s, s.buf
    ensures s.Valid() && s.buf == old(s.buf) && Emitted(old(s.State()), EncVal(f, v), ok, s.State())
    decreases f, 1
  {
    hide EncScalar, EncFrom, Prefixed;
    if f.ltype != Submessage {
      ok := EncodeScalar(s, f, v);
    } else if !f.ptr.Fields? || !v.Msg? {
      ok := false;
    } else {
      ok := EncodeSubmessage(s, f.ptr.fields, v.slots);
    }
  }

  /** `pb_encode_tag_for_field`, then the value. */
  method EncodeTagged(s: OStream, f: Field, v: Val) returns (ok: bool)
    requires s.Valid()
    modifies s, s.buf
    ensures s.Valid() && s.buf == old(s.buf) && Emitted(old(s.State()), EncTagged(f, v), ok, s.State())
    decreases f, 2
  {
    hide EncVal, EncTag, Emitted;
    ghost var a := s.State();
    ok := EncodeTag(s, WireType(f.ltype), f.tag);
    ghost var mid := s.State();
    if !ok {
      CutShort(a, Some(EncTag(WireType(f.ltype), f.tag)), mid, EncVal(f, v));
      return;
    }
    ok := EncodeValue(s, f, v);
    Compose(a, Some(EncTag(WireType(f.ltype), f.tag)), mid, EncVal(f, v), ok, s.State());
  }

  /** One item after another, with or without a tag in front of each. */
  method EncodeItems(s: OStream, f: Field, items: seq<Val>) returns (ok: bool)
    requires s.Valid()
    modifies s, s.buf
    ensures s.Valid() && s.buf == old(s.buf) && Emitted(old(s.State()), EncItems(f, items, 0), ok, s.State())
    decreases f, 3
  {
    hide EncVal, Emitted;
    ghost var a, p: seq<byte> := s.State(), [];
    NothingYet(a);
    NothingBefore(EncItems(f, items, 0));
    for k := 0 to |items|
      invariant s.Valid() && s.buf == old(s.buf)
      invariant Emitted(a, Some(p), true, s.State()) && EncItems(f, items, 0) == Cat(Some(p), EncItems(f, items, k))
    {
      ghost var b, e, rest := s.State(), EncVal(f, items[k]), EncItems(f, items, k + 1);
      CatAssoc(p, e, rest);
      ok := EncodeValue(s, f, items[k]);
      if !ok {
        Stuck(a, p, b, e, rest, s.State());
        return;
      }
      Succeeded(b, e, s.State());
      Grown(a, p, b, e.value, s.State());
      p := p + e.value;
    }
    NothingAfter(p);
    ok := true;
  }

  method EncodeEach(s: OStream, f: Field, items: seq<Val>) returns (ok: bool)
    requires s.Valid()
    modifies s, s.buf
    ensures s.Valid() && s.buf == old(s.buf) && Emitted(old(s.State()), EncEach(f, items, 0), ok, s.State())
    decreases f, 3
  {
    hide EncTagged, Emitted;
    ghost var a, p: seq<byte> := s.State(), [];
    NothingYet(a);
    NothingBefore(EncEach(f, items, 0));
    for k := 0 to |items|
      invariant s.Valid() && s.buf == old(s.buf)
      invariant Emitted(a, Some(p), true, s.State()) && EncEach(f, items, 0) == Cat(Some(p), EncEach(f, items, k))
    {
      ghost var b, e, rest := s.State(), EncTagged(f, items[k]), EncEach(f, items, k + 1);
      CatAssoc(p, e, rest);
      ok := EncodeTagged(s, f, items[k]);
      if !ok {
        Stuck(a, p, b, e, rest, s.State());
        return;
      }
      Succeeded(b, e, s.State());
      Grown(a, p, b, e.value, s.State());
      p := p + e.value;
    }
    NothingAfter(p);
    ok := true;
  }

  lemma NothingBefore(e: Option<seq<byte>>)
    ensures e == Cat(Some([]), e)
  {
    if e.Some? { assert [] + e.value == e.value; }
  }

  lemma NothingAfter(p: seq<byte>)
    ensures Cat(Some(p), Some([])) == Some(p)
  {
    assert p + [] == p;
  }

  lemma Succeeded(b: View, e: Option<seq<byte>>, c: View)
    requires Emitted(b, e, true, c)
    ensures e.Some?
  {
  }

  /** The length of a packed array: computed for fixed-size items, counted for the others. */
  method PackedSize(f: Field, items: seq<Val>) returns (ok: bool, size: nat)
    requires Packable(f.ltype) && |items| <= f.arraySize
    ensures ok <==> EncItems(f, items, 0).Some? && |EncItems(f, items, 0).value| < TWO_TO_64
    ensures ok ==> size == |EncItems(f, items, 0).value|
    decreases f, 4
  {
    hide EncItems, EncVal;
    if f.ltype == Fixed32 {
      FixedSize(f, items, 0, 4);
      return true, 4 * |items|;
    }
    if f.ltype == Fixed64 {
      FixedSize(f, items, 0, 8);
      return true, 8 * |items|;
    }
    var sizes := new OStream.Sizing();
    ok := EncodeItems(sizes, f, items);
    size := sizes.written;
  }

  lemma {:induction false} FixedSize(f: Field, items: seq<Val>, k: nat, n: nat)
    requires k <= |items| && ((f.ltype == Fixed32 && n == 4) || (f.ltype == Fixed64 && n == 8))
    ensures EncItems(f, items, k).Some? && |EncItems(f, items, k).value| == n * (|items| - k)
    decreases |items| - k
  {
    hide LittleEndian;
    if k < |items| {
      FixedSize(f, items, k + 1, n);
      Times(n, |items| - k - 1);
    }
  }

  lemma Times(n: nat, k: nat)
    ensures n * (k + 1) == n + n * k
  {
  }

  /** The packed branch of `encode_array`, after its tag. */
  method EncodePacked(s: OStream, f: Field, items: seq<Val>) returns (ok: bool)
    requires s.Valid() && Packable(f.ltype) && |items| <= f.arraySize
    modifies s, s.buf
    ensures s.Valid() && s.buf == old(s.buf) && Emitted(old(s.State()), Sized(EncItems(f, items, 0)), ok, s.State())
    decreases f, 5
  {
    hide EncItems, Encode, Emitted, Prefixed;
    ghost var a := s.State();
    var size;
    ok, size := PackedSize(f, items);
    if !ok {
      Unsizable(a, EncItems(f, items, 0));
      return;
    }
    ghost var body := EncItems(f, items, 0).value;
    ok := EncodeVarint(s, size);
    ghost var b := s.State();
    if !ok {
      PrefixedStuck(a, body, false, b, b);
      return;
    }
    if !s.writing {
      ok := s.Write([], size);
      JustSizing(b, body, ok, s.State());
    } else {
      ok := EncodeItems(s, f, items);
    }
    if ok {
      PrefixedEmitted(a, size, b, body, s.State());
    } else {
      PrefixedStuck(a, body, true, b, s.State());
    }
  }

  lemma Unsizable(a: View, e: Option<seq<byte>>)
    requires a.room < TWO_TO_64 && (e.None? || |e.value| >= TWO_TO_64)
    ensures Emitted(a, Sized(e), false, a)
  {
    hide Prefixed;
    if e.Some? { TooLarge(a, e.value); }
  }

  method EncodeArray(s: OStream, f: Field, items: seq<Val>) returns (ok: bool)
    requires s.Valid()
    modifies s, s.buf
    ensures s.Valid() && s.buf == old(s.buf) && Emitted(old(s.State()), EncArray(f, items), ok, s.State())
    decreases f, 6
  {
    hide EncItems, EncEach, EncTag, Emitted, Sized;
    ghost var a := s.State();
    if |items| == 0 {
      NothingYet(a);
      return true;
    }
    if |items| > f.arraySize {
      NothingToEmit(a);
      return false;
    }
    if !Packable(f.ltype) {
      ok := EncodeEach(s, f, items);
      return;
    }
    ok := EncodeTag(s, WT_STRING, f.tag);
    ghost var mid := s.State();
    if !ok {
      CutShort(a, Some(EncTag(WT_STRING, f.tag)), mid, Sized(EncItems(f, items, 0)));
      return;
    }
    ok := EncodePacked(s, f, items);
    Compose(a, Some(EncTag(WT_STRING, f.tag)), mid, Sized(EncItems(f, items, 0)), ok, s.State());
  }

  lemma NothingToEmit(a: View)
    ensures Emitted(a, None, false, a)
  {
  }

  /** `pb_check_proto3_default_value`: a submessage is a default if all its fields are. */
  method CheckDefault(f: Field, c: Cell) returns (r: bool)
    ensures r == IsDefault(f, c)
    decreases f, 1
  {
    match c
    case Req(_) => r := false;
    case Opt(has, _) => r := !has;
    case Rep(items) => r := |items| == 0;
    case One(which, _) => r := which == 0;
    case Sing(v) =>
      match v
      case Int(i) => r := i == 0;
      case Bytes(b) => r := if f.ltype == FixedBytes then f.dataSize == 0 else |b| == 0;
      case Chars(s) => r := CLength(s) == 0;
      case Msg(slots) =>
        if f.ptr.Fields? {
          r := CheckAllDefault(f.ptr.fields, slots);
        } else {
          r := false;
        }
  }

  method CheckAllDefault(d: seq<Field>, m: seq<Cell>) returns (r: bool)
    ensures r == AllDefault(d, m, 0)
    decreases d, 0
  {
    hide IsDefault, SlotOf;
    if |d| == 0 {
      return true;
    }
    var iter := new FieldIter.Begin(d);
    var more := true;
    while more
      invariant iter.Valid() && iter.fields == d && fresh(iter)
      invariant AllDefault(d, m, 0) == AllDefault(d, m, if more then iter.pos else |d|)
      decreases more, |d| - iter.pos
    {
      if iter.slot >= |m| {
        return false;
      }
      r := CheckDefault(d[iter.pos], m[iter.slot]);
      if !r {
        return;
      }
      more := iter.Next();
    }
    r := true;
  }

  /** `encode_basic_field` */
  method EncodeBasicField(s: OStream, f: Field, c: Cell) returns (ok: bool)
    requires s.Valid()
    modifies s, s.buf
    ensures s.Valid() && s.buf == old(s.buf) && Emitted(old(s.State()), EncField(f, c), ok, s.State())
    decreases f, 7
  {
    hide EncTagged, EncArray, IsZero, Emitted;
    NothingYet(s.State());
    NothingToEmit(s.State());
    match (f.htype, c)
    case (Required, Req(v)) => ok := EncodeTagged(s, f, v);
    case (Optional, Opt(has, v)) => if has { ok := EncodeTagged(s, f, v); } else { ok := true; }
    case (Optional, Sing(v)) =>
      var absent := CheckDefault(f, c);
      if absent { ok := true; } else { ok := EncodeTagged(s, f, v); }
    case (Repeated, Rep(items)) => ok := EncodeArray(s, f, items);
    case (Oneof, One(which, v)) => if which == f.tag { ok := EncodeTagged(s, f, v); } else { ok := true; }
    case _ => ok := false;
  }

  /** `pb_encode` */
  method EncodeMessage(s: OStream, d: seq<Field>, m: seq<Cell>) returns (ok: bool)
    requires s.Valid()
    modifies s, s.buf
    ensures s.Valid() && s.buf == old(s.buf) && Emitted(old(s.State()), EncFrom(d, m, 0), ok, s.State())
    decreases d, 5
  {
    hide EncField, Emitted, SlotOf;
    ghost var a, p: seq<byte> := s.State(), [];
    NothingYet(a);
    NothingBefore(EncFrom(d, m, 0));
    if |d| == 0 {
      return true;
    }
    var iter := new FieldIter.Begin(d);
    var more := true;
    while more
      invariant s.Valid() && s.buf == old(s.buf) && iter.Valid() && iter.fields == d && fresh(iter)
      invariant Emitted(a, Some(p), true, s.State())
      invariant EncFrom(d, m, 0) == Cat(Some(p), EncFrom(d, m, if more then iter.pos else |d|))
      decreases more, |d| - iter.pos
    {
      if iter.slot >= |m| {
        Stuck(a, p, s.State(), None, None, s.State());
        return false;
      }
      ghost var k := iter.pos;
      ghost var b, e, rest := s.State(), EncField(d[k], m[iter.slot]), EncFrom(d, m, k + 1);
      CatAssoc(p, e, rest);
      ok := EncodeBasicField(s, d[iter.pos], m[iter.slot]);
      if !ok {
        Stuck(a, p, b, e, rest, s.State());
        return;
      }
      Succeeded(b, e, s.State());
      Grown(a, p, b, e.value, s.State());
      p := p + e.value;
      more := iter.Next();
    }
    NothingAfter(p);
    ok := true;
  }

  /** `pb_get_encoded_size` */
  method EncodedSize(d: seq<Field>, m: seq<Cell>) returns (ok: bool, size: nat)
    ensures ok <==> EncMsg(d, m).Some? && |EncMsg(d, m).value| < TWO_TO_64
    ensures ok ==> size == |EncMsg(d, m).value|
  {
    hide EncFrom;
    var sizes := new OStream.Sizing();
    ok := EncodeMessage(sizes, d, m);
    size := sizes.written;
  }
}
