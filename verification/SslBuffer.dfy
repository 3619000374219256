/** The transport buffer of the TLS record layer, with its 16-bit offset, size and capacity. */
module SslBuffer {
  import opened Bytes

  const ALIGN: nat := 8 // SSL3_ALIGN_PAYLOAD
  const U16: nat := 0x1_0000

  /** The memory and the part of it that is in use. No memory at all stands for a null buffer. */
  datatype Window = Window(mem: seq<byte>, offset: nat, size: nat, cap: nat)

  const NO_BUFFER := Window([], 0, 0, 0)

  predicate Sound(w: Window) {
    w.size <= w.cap < U16 && w.offset < U16 && w.offset + w.cap <= |w.mem|
  }

  function Data(w: Window): (d: seq<byte>)
    requires Sound(w)
    ensures |d| == w.size
  {
    w.mem[w.offset..w.offset + w.size]
  }

  // ---- consuming

  /** `Consume`: the offset is a 16-bit number. */
  function Consumed(w: Window, len: nat): (r: Window)
    requires len <= w.size && Sound(w)
    ensures Sound(r)
  {
    Window(w.mem, (w.offset + len) % U16, w.size - len, w.cap - len)
  }

  /** The offset wraps, and there is something left. */
  predicate Loses(w: Window, len: nat) {
    w.offset + len >= U16 && len < w.size
  }

  lemma ConsumeKeeps(w: Window, len: nat)
    requires Sound(w) && len <= w.size && !Loses(w, len)
    ensures Data(Consumed(w, len)) == Data(w)[len..]
  {
  }

  /** Whatever is in memory, consuming leaves just the rest of the data: exactly if the offset stays below 2^16, or
      nothing is left. */
  lemma ConsumeIsExact(length: nat, offset: nat, size: nat, cap: nat, len: nat)
    requires len <= size <= cap < U16 && offset < U16 && offset + cap <= length
    ensures (forall mem: seq<byte> :: |mem| == length ==> LeavesRest(Window(mem, offset, size, cap), len)) <==>
      offset + len < U16 || len == size
  {
    if offset + len < U16 || len == size {
      forall mem: seq<byte> | |mem| == length ensures LeavesRest(Window(mem, offset, size, cap), len) {
        ConsumeKeeps(Window(mem, offset, size, cap), len);
      }
    } else {
      var right := offset + len;
      var mem: seq<byte> := seq(length, i => if i == right then 1 else 0);
      var w := Window(mem, offset, size, cap);
      assert Data(w)[len..][0] == Data(w)[len] == mem[right] == 1;
      assert Data(Consumed(w, len))[0] == mem[right % U16] == 0;
      assert !LeavesRest(w, len);
    }
  }

  predicate LeavesRest(w: Window, len: nat) {
    Sound(w) && len <= w.size && Data(Consumed(w, len)) == Data(w)[len..]
  }

  /** No consumption can wrap the offset. */
  predicate Roomy(w: Window) {
    w.offset + w.cap < U16
  }

  lemma ConsumeRoomy(w: Window, len: nat)
    requires Sound(w) && len <= w.size && Roomy(w)
    ensures Roomy(Consumed(w, len)) && !Loses(w, len)
  {
  }

  // ---- appending

  lemma Bounds(w: Window)
    requires Sound(w)
    ensures w.size <= w.cap < U16 && w.offset + w.cap <= |w.mem| && Data(w) == w.mem[w.offset..w.offset + w.size]
  {
  }

  lemma FitsThere(mem: seq<byte>, offset: nat, cap: nat, data: seq<byte>)
    requires offset + cap <= |mem| && |data| <= cap < U16 && offset < U16
    ensures Sound(Window(Overwrite(mem, offset, data), offset, |data|, cap))
  {
  }

  lemma OverwriteNone(mem: seq<byte>, at: nat)
    requires at <= |mem|
    ensures Overwrite(mem, at, []) == mem
  {
  }

  /** Bytes put into `remaining()` and then `DidWrite` */
  function Appended(w: Window, data: seq<byte>): (r: Window)
    requires Sound(w) && |data| <= w.cap - w.size
    ensures Sound(r)
  {
    Window(Overwrite(w.mem, w.offset + w.size, data), w.offset, w.size + |data|, w.cap)
  }

  lemma AppendedData(w: Window, data: seq<byte>)
    requires Sound(w) && |data| <= w.cap - w.size
    ensures Data(Appended(w, data)) == Data(w) + data
  {
  }

  // ---- growing

  /** What malloc gives: where the memory is and what is in it, zero beyond what is said. */
  datatype Block = Block(address: nat, mem: seq<byte>)

  function Memory(b: Block, n: nat): (m: seq<byte>)
    ensures |m| == n
  {
    seq(n, i => if 0 <= i < |b.mem| then b.mem[i] else 0)
  }

  /** More capacity takes new memory. */
  predicate Mallocs(w: Window, newCap: nat) {
    w.cap < newCap < U16
  }

  datatype Grown = Grown(ok: bool, w: Window)

  /** `EnsureCap`. The data written after the header will be aligned. */
  function Ensured(w: Window, headerLen: nat, newCap: nat, block: Option<Block>): (r: Grown)
    requires Sound(w)
    ensures Sound(r.w) && r.w.size == w.size && (r.ok ==> r.w.cap >= newCap)
  {
    if newCap > 0xffff then Grown(false, w)
    else if w.cap >= newCap then Grown(true, w)
    else if block.None? then Grown(false, w)
    else
      var at := Misalignment(headerLen + block.value.address);
      Grown(true, Window(Overwrite(Memory(block.value, newCap + ALIGN - 1), at, Data(w)), at, w.size, newCap))
  }

  lemma EnsuredData(w: Window, headerLen: nat, newCap: nat, block: Option<Block>)
    requires Sound(w)
    ensures Data(Ensured(w, headerLen, newCap, block).w) == Data(w)
    ensures newCap + ALIGN <= U16 && Roomy(w) ==> Roomy(Ensured(w, headerLen, newCap, block).w)
  {
    hide Misalignment;
  }

  /** `(0 - n) & (ALIGN - 1)` */
  function Misalignment(n: nat): (r: nat)
    ensures r < ALIGN && (r + n) % ALIGN == 0
  {
    (ALIGN - n % ALIGN) % ALIGN
  }

  // ---- the class

  class SSLBuffer {
    var buf: array?<byte>
    var offset: nat
    var size: nat
    var cap: nat

    ghost predicate Valid()
      reads this, if buf == null then {} else {buf}
    {
      Sound(View()) && (buf == null ==> View() == NO_BUFFER) && (buf != null ==> buf.Length > 0)
    }

    ghost function View(): Window
      reads this, if buf == null then {} else {buf}
    {
      Window(if buf == null then [] else buf[..], offset, size, cap)
    }

    ghost function Contents(): seq<byte>
      requires Valid()
      reads this, if buf == null then {} else {buf}
    {
      Data(View())
    }

    constructor ()
      ensures Valid() && buf == null && View() == NO_BUFFER
    {
      buf, offset, size, cap := null, 0, 0, 0;
    }

    method Clear()
      modifies this
      ensures Valid() && buf == null && View() == NO_BUFFER
    {
      buf, offset, size, cap := null, 0, 0, 0;
    }

    /** `EnsureCap`, given what malloc gives */
    method EnsureCap(headerLen: nat, newCap: nat, block: Option<Block>) returns (ok: bool)
      requires Valid()
      modifies this
      ensures Valid() && Grown(ok, View()) == Ensured(old(View()), headerLen, newCap, block)
      ensures buf == old(buf) || (buf != null && fresh(buf))
    {
      hide Misalignment, Overwrite, Data;
      if newCap > 0xffff {
        return false;
      }
      if cap >= newCap {
        return true;
      }
      if block.None? {
        return false;
      }
      var b := block.value;
      var newBuf := new byte[newCap + ALIGN - 1](i => if 0 <= i < |b.mem| then b.mem[i] else 0);
      assert newBuf[..] == Memory(b, newCap + ALIGN - 1);
      MoveTo(newBuf, Misalignment(headerLen + b.address), newCap);
      ok := true;
    }

    method MoveTo(newBuf: array<byte>, newOffset: nat, newCap: nat)
      requires Valid() && newBuf != buf && newOffset + newCap <= newBuf.Length && cap < newCap < U16 && newOffset < U16
      modifies this, newBuf
      ensures Valid() && buf == newBuf
      ensures View() == Window(Overwrite(old(newBuf[..]), newOffset, old(Contents())), newOffset, old(size), newCap)
    {
      hide Overwrite, Sound, Data;
      ghost var mem, data := newBuf[..], Contents();
      Bounds(View());
      if buf != null {
        assert buf[offset..offset + size] == buf[..][offset..offset + size] == data;
        Copy(buf, offset, newBuf, newOffset, size);
      } else {
        OverwriteNone(mem, newOffset);
        assert data == [];
      }
      assert newBuf[..] == Overwrite(mem, newOffset, data);
      FitsThere(mem, newOffset, newCap, data);
      buf, offset, cap := newBuf, newOffset, newCap;
    }

    /** `data()` and `size()` */
    method Bytes() returns (data: seq<byte>)
      requires Valid()
      ensures data == Contents()
    {
      data := if buf == null then [] else buf[offset..offset + size];
    }

    /** Bytes put into `remaining()` */
    method Fill(data: seq<byte>)
      requires Valid() && |data| <= cap - size
      modifies buf
      ensures Valid() && View() == old(View()).(mem := Overwrite(old(View()).mem, offset + size, data))
    {
      if data != [] {
        Put(buf, offset + size, data);
      } else {
        OverwriteNone(View().mem, offset + size);
      }
    }

    /** `DidWrite` aborts when there is no room; no caller gets there. */
    method DidWrite(newSize: nat)
      requires Valid() && newSize <= cap - size
      modifies this`size
      ensures Valid() && View() == old(View()).(size := old(size) + newSize)
    {
      size := size + newSize;
    }

    /** Bytes put into `remaining()` and then `DidWrite` */
    method Append(data: seq<byte>)
      requires Valid() && |data| <= cap - size
      modifies this`size, buf
      ensures Valid() && View() == Appended(old(View()), data)
    {
      hide Overwrite;
      Fill(data);
      DidWrite(|data|);
    }

    /** `Consume` aborts when there is less; no caller gets there. */
    method Consume(len: nat)
      requires Valid() && len <= size
      modifies this`offset, this`size, this`cap
      ensures Valid() && View() == Consumed(old(View()), len)
    {
      offset := (offset + len) % U16;
      size := size - len;
      cap := cap - len;
    }
  }

  /** Bytes written into an array */
  method Put(dst: array<byte>, at: nat, data: seq<byte>)
    requires at + |data| <= dst.Length
    modifies dst
    ensures dst[..] == Overwrite(old(dst[..]), at, data)
  {
    for i := 0 to |data|
      invariant forall k :: 0 <= k < i ==> dst[at + k] == data[k]
      invariant forall k :: 0 <= k < at || at + i <= k < dst.Length ==> dst[k] == old(dst[k])
    {
      dst[at + i] := data[i];
    }
    ghost var r := Overwrite(old(dst[..]), at, data);
    forall k | 0 <= k < dst.Length ensures dst[k] == r[k] {
      if at <= k < at + |data| { assert dst[at + (k - at)] == data[k - at]; }
    }
  }

  /** `OPENSSL_memcpy` between two arrays */
  method Copy(src: array<byte>, from: nat, dst: array<byte>, at: nat, n: nat)
    requires src != dst && from + n <= src.Length && at + n <= dst.Length
    modifies dst
    ensures dst[..] == Overwrite(old(dst[..]), at, src[from..from + n])
  {
    for i := 0 to n
      invariant forall k :: at <= k < at + i ==> dst[k] == src[from + (k - at)]
      invariant forall k :: 0 <= k < at || at + i <= k < dst.Length ==> dst[k] == old(dst[k])
    {
      dst[at + i] := src[from + i];
    }
  }
}
