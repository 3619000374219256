/** `pb_ostream_t` over a memory buffer, or counting only, and the encoder that drives it. */
module PbOutput {
  import opened Bytes
  import opened PbVarint
  import opened PbCodec

  /** What can be said of a stream: the bytes before its write position, the bytes past its limit,
      how many more it takes, how many it took, and whether it writes at all or only counts.
      A counting stream takes what a `size_t` can count. */
  datatype View = View(out: seq<byte>, beyond: seq<byte>, room: nat, written: nat, writing: bool)

  /** From a to b the stream was asked for e. It succeeds exactly when e exists and fits. It never touches
      what was written before or lies past the limit. */
  predicate Emitted(a: View, e: Option<seq<byte>>, ok: bool, b: View) {
    && (ok <==> e.Some? && |e.value| <= a.room)
    && b.writing == a.writing && b.beyond == a.beyond && a.out <= b.out
    && (ok ==> b.written == a.written + |e.value| && b.room == a.room - |e.value|)
    && (ok ==> b.out == if a.writing then a.out + e.value else a.out)
  }

  lemma Compose(a: View, e: Option<seq<byte>>, b: View, e': Option<seq<byte>>, ok: bool, c: View)
    requires Emitted(a, e, true, b) && Emitted(b, e', ok, c)
    ensures Emitted(a, Cat(e, e'), ok, c)
  {
    if !ok {
      PrefixOfPrefix(a.out, b.out, c.out);
    } else if a.writing {
      assert (a.out + e.value) + e'.value == a.out + (e.value + e'.value);
    }
  }

  lemma PrefixOfPrefix(a: seq<byte>, b: seq<byte>, c: seq<byte>)
    requires a <= b <= c
    ensures a <= c
  {
  }

  lemma CutShort(a: View, e: Option<seq<byte>>, b: View, e': Option<seq<byte>>)
    requires Emitted(a, e, false, b)
    ensures Emitted(a, Cat(e, e'), false, b)
  {
  }

  class OStream {
    var writing: bool // `callback != NULL`
    var buf: array<byte>
    var pos: nat   // `state`, as an offset into the buffer
    var maxSize: nat
    var written: nat

    ghost predicate Valid()
      reads this
    {
      && written <= maxSize < TWO_TO_64
      && (writing ==> pos + (maxSize - written) <= buf.Length)
    }

    ghost function State(): View
      reads this, buf
      requires Valid()
    {
      if writing then View(buf[..pos], buf[pos + (maxSize - written)..], maxSize - written, written, true)
      else View([], [], maxSize - written, written, false)
    }

    /** `PB_OSTREAM_SIZING` */
    constructor Sizing()
      ensures Valid() && fresh(buf) && State() == View([], [], TWO_TO_64 - 1, 0, false)
    {
      writing, buf, pos, maxSize, written := false, new byte[0], 0, TWO_TO_64 - 1, 0;
    }

    /** `pb_ostream_from_buffer`, and the substream of `pb_encode_submessage`: a window on a buffer. */
    constructor Window(buffer: array<byte>, start: nat, size: nat)
      requires start + size <= buffer.Length && size < TWO_TO_64
      ensures Valid() && buf == buffer
      ensures State() == View(buffer[..start], buffer[start + size..], size, 0, true)
    {
      writing, buf, pos, maxSize, written := true, buffer, start, size, 0;
    }

    /** `pb_write`; a counting stream is given no bytes to copy. */
    method Write(src: seq<byte>, count: nat) returns (ok: bool)
      requires Valid() && (writing ==> |src| == count)
      modifies this, buf
      ensures Valid() && buf == old(buf) && writing == old(writing)
      ensures |src| == count ==> Emitted(old(State()), Some(src), ok, State())
      ensures !writing ==>
        && ok == (count <= old(State()).room)
        && (ok ==> State() == old(State()).(written := old(written) + count, room := old(State()).room - count))
        && (!ok ==> State() == old(State()))
    {
      if written + count > maxSize {
        return false;
      }
      if writing {
        BufWrite(src);
      }
      written := written + count;
      ok := true;
    }

    /** `buf_write` */
    method BufWrite(src: seq<byte>)
      requires writing && pos + |src| <= buf.Length
      modifies this`pos, buf
      ensures pos == old(pos) + |src|
      ensures buf[..] == old(buf[..pos]) + src + old(buf[pos + |src|..])
    {
      var dest := pos;
      pos := dest + |src|;
      ghost var before := buf[..];
      for i := 0 to |src|
        invariant pos == dest + |src|
        invariant forall k :: 0 <= k < buf.Length ==>
          buf[k] == if dest <= k < dest + i then src[k - dest] else before[k]
      {
        buf[dest + i] := src[i];
      }
      Splice(before, dest, src, buf[..]);
      assert before[..dest] == old(buf[..pos]) && before[dest + |src|..] == old(buf[pos + |src|..]);
    }
  }

  lemma Splice(a: seq<byte>, from: nat, src: seq<byte>, b: seq<byte>)
    requires |a| == |b| && from + |src| <= |a|
    requires forall k :: 0 <= k < |a| ==> b[k] == if from <= k < from + |src| then src[k - from] else a[k]
    ensures b == a[..from] + src + a[from + |src|..]
  {
  }

  method EncodeVarint(s: OStream, value: nat) returns (ok: bool)
    requires s.Valid() && value < TWO_TO_64
    modifies s, s.buf
    ensures s.Valid() && s.buf == old(s.buf) && Emitted(old(s.State()), Some(Encode(value)), ok, s.State())
  {
    if value <= 0x7F {
      ok := s.Write([value], 1);
      return;
    }
    var buffer, n := VarintBytes(value);
    ok := s.Write(buffer[..n], n);
  }

  /** The loop of `pb_encode_varint` over its ten-byte scratch buffer. */
  method VarintBytes(value: nat) returns (buffer: array<byte>, n: nat)
    requires 0x7F < value < TWO_TO_64
    ensures fresh(buffer) && n <= buffer.Length && buffer[..n] == Encode(value)
  {
    hide Encode;
    buffer := new byte[10];
    n := 0;
    var v := value;
    AtMostTenBytes(value);
    while v != 0
      invariant n <= 10
      invariant v != 0 ==> Encode(value) == buffer[..n] + Encode(v)
      invariant v == 0 ==> n > 0 && buffer[n - 1] >= 128 && Encode(value) == buffer[..n - 1] + [buffer[n - 1] - 128]
      decreases v
    {
      ghost var done := buffer[..n];
      ByteOut(done, v);
      buffer[n] := v % 128 + 128;
      assert buffer[..n] == done && buffer[..n + 1] == done + [buffer[n]];
      v := v / 128;
      n := n + 1;
    }
    ghost var last := buffer[n - 1];
    buffer[n - 1] := buffer[n - 1] % 128;
    assert buffer[..n] == buffer[..n - 1] + [last - 128];
  }

  lemma ByteOut(done: seq<byte>, v: nat)
    requires v > 0
    ensures |done + Encode(v)| > |done|
    ensures v >= 128 ==> done + Encode(v) == (done + [(v % 128 + 128) as byte]) + Encode(v / 128) && v / 128 > 0
    ensures v < 128 ==> done + Encode(v) == done + [v as byte] && v / 128 == 0 && v % 128 == v
  {
  }
}
