/** `pb_istream_t` over a memory buffer, and the decoders for everything but messages. */
module PbInput {
  import opened Bytes
  import opened PbVarint
  import opened PbTypes
  import opened PbCodec

  class IStream {
    const buf: array<byte>
    var pos: nat  // `state`, as an offset into the buffer
    var left: nat // `bytes_left`

    ghost predicate Valid()
      reads this
    {
      pos + left <= buf.Length
    }

    /** What has not been read. */
    ghost function Input(): (b: seq<byte>)
      requires Valid()
      reads this, buf
      ensures |b| == left
    {
      buf[pos..pos + left]
    }

    /** Where the stream ends in the buffer. */
    ghost function End(): nat
      reads this
    {
      pos + left
    }

    /** `pb_istream_from_buffer`, and a window of it. */
    constructor Window(buffer: array<byte>, start: nat, size: nat)
      requires start + size <= buffer.Length
      ensures Valid() && buf == buffer && pos == start && left == size && Input() == buffer[start..start + size]
    {
      buf, pos, left := buffer, start, size;
    }

    method ReadByte() returns (ok: bool, x: byte)
      requires Valid()
      modifies this
      ensures Valid() && End() == old(End()) && ok == (old(Input()) != [])
      ensures ok ==> x == old(Input())[0] && Input() == old(Input())[1..]
      ensures !ok ==> Input() == old(Input())
    {
      if left == 0 {
        return false, 0;
      }
      ok, x := true, buf[pos];
      pos, left := pos + 1, left - 1;
    }

    /** `pb_read` and `buf_read`, giving back the bytes copied. */
    method Read(count: nat) returns (ok: bool, b: seq<byte>)
      requires Valid()
      modifies this
      ensures Valid() && End() == old(End()) && ok == Take(old(Input()), count).Some?
      ensures ok ==> b == Take(old(Input()), count).value.0 && Input() == Take(old(Input()), count).value.1
    {
      b := [];
      if left < count {
        return false, b;
      }
      for i := 0 to count
        invariant b == buf[pos..pos + i] && pos == old(pos) && left == old(left)
      {
        b := b + [buf[pos + i]];
      }
      Slice(buf[..], pos, count, left);
      pos, left := pos + count, left - count;
      ok := true;
    }
  }

  lemma Slice(b: seq<byte>, from: nat, n: nat, all: nat)
    requires n <= all && from + all <= |b|
    ensures b[from..from + all][..n] == b[from..from + n] && b[from..from + all][n..] == b[from + n..from + all]
  {
  }

  /** `pb_decode_varint32_eof`; eof tells an exhausted stream from a broken varint. */
  method DecodeVarint32(s: IStream) returns (ok: bool, value: nat, eof: bool)
    requires s.Valid()
    modifies s
    ensures s.Valid() && s.End() == old(s.End()) && ok == Decode32(old(s.Input())).Some?
    ensures ok ==> Decode32(old(s.Input())).value == (value, s.Input())
    ensures ok ==> value < TWO_TO_32
    ensures eof == (old(s.Input()) == [])
  {
    hide BitOr, Shl, Overflows32;
    eof := false;
    value := 0;
    var x;
    ok, x := s.ReadByte();
    if !ok {
      return false, 0, s.left == 0;
    }
    value := x % 128;
    if x < 128 {
      return;
    }
    var bitpos: nat := 7;
    ghost var whole := Decode32(old(s.Input()));
    Pow14();
    while true
      invariant s.Valid() && s.End() == old(s.End()) && whole == Loop32(s.Input(), value, bitpos) && value < TWO_TO_32
      decreases s.left
    {
      ok, x := s.ReadByte();
      if !ok || Overflows32(x, value, bitpos) {
        return false, value, false;
      }
      if bitpos < 32 {
        OrBelow(value, Shl(x % 128, bitpos) % TWO_TO_32, 32);
        value := BitOr(value, Shl(x % 128, bitpos) % TWO_TO_32);
      }
      bitpos := (bitpos + 7) % 256;
      if x < 128 {
        ok := !(bitpos == 35 && x / 16 % 8 != 0);
        return;
      }
    }
  }

  /** Or-ing two n-bit numbers gives an n-bit number. */
  lemma OrBelow(a: nat, b: nat, n: nat)
    requires n == 32 && a < TWO_TO_32 && b < TWO_TO_32
    ensures BitOr(a, b) < TWO_TO_32
  {
    hide BitOr, Shl;
    Pow35();
    OrBits(a, b, 32);
  }

  lemma {:induction false} OrBits(a: nat, b: nat, n: nat)
    requires a < Shl(1, n) && b < Shl(1, n)
    ensures BitOr(a, b) < Shl(1, n)
  {
    if n > 0 && a > 0 && b > 0 {
      Half(Shl(1, n - 1));
      OrBits(a / 2, b / 2, n - 1);
    }
  }

  method DecodeVarint64(s: IStream) returns (ok: bool, value: nat)
    requires s.Valid()
    modifies s
    ensures s.Valid() && s.End() == old(s.End()) && ok == Decode64(old(s.Input())).Some?
    ensures ok ==> Decode64(old(s.Input())).value == (value, s.Input())
  {
    hide BitOr, Shl;
    value := 0;
    var bitpos: nat := 0;
    ghost var whole := Decode64(old(s.Input()));
    while true
      invariant s.Valid() && s.End() == old(s.End()) && whole == Loop64(s.Input(), value, bitpos)
      decreases s.left
    {
      if bitpos >= 64 {
        return false, value;
      }
      var x;
      ok, x := s.ReadByte();
      if !ok {
        return;
      }
      value := BitOr(value, Shl(x % 128, bitpos) % TWO_TO_64);
      bitpos := bitpos + 7;
      if x < 128 {
        return;
      }
    }
  }

  method SkipVarintBytes(s: IStream) returns (ok: bool)
    requires s.Valid()
    modifies s
    ensures s.Valid() && s.End() == old(s.End()) && ok == SkipVarint(old(s.Input())).Some?
    ensures ok ==> s.Input() == SkipVarint(old(s.Input())).value
  {
    ghost var whole := SkipVarint(old(s.Input()));
    while true
      invariant s.Valid() && s.End() == old(s.End()) && whole == SkipVarint(s.Input())
      decreases s.left
    {
      var x;
      ok, x := s.ReadByte();
      if !ok || x < 128 {
        return;
      }
    }
  }

  /** `pb_skip_field` */
  method SkipField(s: IStream, wt: nat) returns (ok: bool)
    requires s.Valid()
    modifies s
    ensures s.Valid() && s.End() == old(s.End()) && ok == Skip(wt, old(s.Input())).Some?
    ensures ok ==> s.Input() == Skip(wt, old(s.Input())).value
  {
    hide Decode32, SkipVarint;
    var skipped;
    if wt == WT_VARINT {
      ok := SkipVarintBytes(s);
    } else if wt == WT_64BIT {
      ok, skipped := s.Read(8);
    } else if wt == WT_STRING {
      var length, eof;
      ok, length, eof := DecodeVarint32(s);
      if ok {
        ok, skipped := s.Read(length);
      }
    } else if wt == WT_32BIT {
      ok, skipped := s.Read(4);
    } else {
      ok := false;
    }
  }

  /** `pb_make_string_substream`: the substream gets the next bytes, the stream the count of those behind them. */
  method MakeSubstream(s: IStream) returns (ok: bool, sub: IStream)
    requires s.Valid()
    modifies s
    ensures s.Valid() && fresh(sub) && sub.Valid() && sub.buf == s.buf
    ensures ok == TakePrefixed(old(s.Input())).Some?
    ensures ok ==> sub.End() + s.left == old(s.End())
    ensures s.End() <= old(s.End()) && (!ok ==> s.End() == old(s.End()))
    ensures ok ==> TakePrefixed(old(s.Input())).value == (sub.Input(), s.buf[sub.End()..sub.End() + s.left])
  {
    hide Decode32;
    var size, eof;
    ok, size, eof := DecodeVarint32(s);
    if !ok || s.left < size {
      sub := new IStream.Window(s.buf, s.pos, 0);
      return false, sub;
    }
    Slice(s.buf[..], s.pos, size, s.left);
    sub := new IStream.Window(s.buf, s.pos, size);
    s.left := s.left - size;
  }

  /** `pb_close_string_substream`: skips what the substream left and moves the stream behind it. */
  method CloseSubstream(s: IStream, sub: IStream)
    requires s != sub && sub.Valid() && sub.buf == s.buf && sub.End() + s.left <= s.buf.Length
    modifies s, sub
    ensures s.Valid() && s.End() == old(sub.End() + s.left)
    ensures s.Input() == s.buf[old(sub.End())..old(sub.End() + s.left)]
  {
    if sub.left > 0 {
      var ok, skipped := sub.Read(sub.left);
    }
    s.pos := sub.pos;
  }

  // ---- values

  method DecodeInt(s: IStream, f: Field) returns (ok: bool, v: Val)
    requires s.Valid() && (f.ltype.Varint? || f.ltype.Uvarint? || f.ltype.Svarint?)
    modifies s
    ensures s.Valid() && s.End() == old(s.End()) && ok == DecScalar(f, old(s.Input())).Some?
    ensures ok ==> DecScalar(f, old(s.Input())).value == (v, s.Input())
  {
    hide Decode64, FitsSigned, IntSize, SignedMax;
    v := Int(0);
    var value;
    ok, value := DecodeVarint64(s);
    if !ok {
      return;
    }
    if f.ltype == Uvarint {
      ok, v := IntSize(f.dataSize) && value < 2 * SignedMax(f.dataSize), Int(value);
      return;
    }
    var i;
    if f.ltype == Svarint {
      i := UnZigZag(value);
    } else {
      i := if f.dataSize == 8 then Signed64(value) else Signed32(value);
    }
    ok, v := FitsSigned(f.dataSize, i), Int(i);
  }

  /** `pb_decode_fixed32` and `pb_decode_fixed64` */
  method DecodeFixed(s: IStream, n: nat) returns (ok: bool, v: Val)
    requires s.Valid()
    modifies s
    ensures s.Valid() && s.End() == old(s.End()) && ok == DecFixed(old(s.Input()), n).Some?
    ensures ok ==> DecFixed(old(s.Input()), n).value == (v, s.Input())
  {
    v := Int(0);
    var b;
    ok, b := s.Read(n);
    if ok {
      v := Int(FromLittleEndian(b));
    }
  }

  method DecodeSized(s: IStream, f: Field) returns (ok: bool, v: Val)
    requires s.Valid() && (f.ltype.Blob? || f.ltype.Text? || f.ltype.FixedBytes?)
    modifies s
    ensures s.Valid() && s.End() == old(s.End()) && ok == DecScalar(f, old(s.Input())).Some?
    ensures ok ==> DecScalar(f, old(s.Input())).value == (v, s.Input())
  {
    hide Decode32;
    v := Int(0);
    var size, eof, b;
    ok, size, eof := DecodeVarint32(s);
    if !ok {
      return;
    }
    if f.ltype == Text {
      if size >= TWO_TO_32 - 1 || size + 1 > f.dataSize {
        return false, v;
      }
      ok, b := s.Read(size);
      v := Chars(b);
      return;
    }
    if size > PB_SIZE_MAX {
      return false, v;
    }
    if f.ltype == Blob {
      if BYTES_HEADER + size > f.dataSize {
        return false, v;
      }
    } else if size == 0 {
      v := Bytes(seq(f.dataSize, _ => 0));
      return;
    } else if size != f.dataSize {
      return false, v;
    }
    ok, b := s.Read(size);
    v := Bytes(b);
  }

  method DecodeScalar(s: IStream, f: Field) returns (ok: bool, v: Val)
    requires s.Valid() && f.ltype != Submessage
    modifies s
    ensures s.Valid() && s.End() == old(s.End()) && ok == DecScalar(f, old(s.Input())).Some?
    ensures ok ==> DecScalar(f, old(s.Input())).value == (v, s.Input())
  {
    hide Decode64, Decode32, DecBlob, DecText, DecFixedBytes, DecFixed, FitsSigned;
    if f.ltype == Fixed32 {
      ok, v := DecodeFixed(s, 4);
    } else if f.ltype == Fixed64 {
      ok, v := DecodeFixed(s, 8);
    } else if f.ltype.Blob? || f.ltype.Text? || f.ltype.FixedBytes? {
      ok, v := DecodeSized(s, f);
    } else {
      ok, v := DecodeInt(s, f);
    }
  }
}
