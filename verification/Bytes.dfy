/** Machine-word vocabulary and byte-sequence laws shared by every model. */
module Bytes {

  type byte = b: int | 0 <= b < 0x100
  type u16 = w: int | 0 <= w < 0x1_0000
  type u32 = w: int | 0 <= w < 0x1_0000_0000

  datatype Option<+T> = None | Some(value: T)

  function Min(a: int, b: int): int {
    if a < b then a else b
  }

  function Max(a: int, b: int): int {
    if a < b then b else a
  }

  /** Little-endian 16-bit field. */
  function Le16(lo: byte, hi: byte): u16 {
    lo + 256 * hi
  }

  /** Little-endian 32-bit field. */
  function Le32(b0: byte, b1: byte, b2: byte, b3: byte): u32 {
    b0 + 0x100 * b1 + 0x1_0000 * b2 + 0x100_0000 * b3
  }

  /** `n` bytes of `b` from `off` on. */
  function Slice(b: seq<byte>, off: nat, n: nat): (r: seq<byte>)
    requires off + n <= |b|
    ensures |r| == n
  {
    b[off..off + n]
  }

  lemma SliceJoin(b: seq<byte>, off: nat, n: nat, m: nat)
    requires off + n + m <= |b|
    ensures Slice(b, off, n) + Slice(b, off + n, m) == Slice(b, off, n + m)
    ensures Slice(b, off, 0) == []
  {
  }

  /** `base` with `data` written over it from byte `off` on. */
  function Overlay(base: seq<byte>, off: nat, data: seq<byte>): (r: seq<byte>)
    requires off + |data| <= |base|
    ensures |r| == |base|
  {
    base[..off] + data + base[off + |data|..]
  }

  /** A byte sequence after a write at `off`, growing it when the write runs past its end. */
  function Written(file: seq<byte>, off: nat, data: seq<byte>): (r: seq<byte>)
    requires off <= |file|
    ensures |r| == Max(|file|, off + |data|)
  {
    file[..off] + data + file[Min(off + |data|, |file|)..]
  }

  /** The write that fills a gap before `off` with zeros. */
  function ZeroFilled(file: seq<byte>, off: nat, data: seq<byte>): (r: seq<byte>)
    ensures |r| == Max(|file|, off + |data|)
  {
    if off <= |file| then Written(file, off, data) else file + seq(off - |file|, _ => 0) + data
  }

  predicate GapIsZero(image: seq<byte>, size: nat, off: nat)
    requires off <= |image|
  {
    forall p :: size <= p < off ==> image[p] == 0
  }

  /** Cutting an overlaid image is the zero-filling write exactly when the gap was zero. */
  lemma OverlayGap(image: seq<byte>, tail: seq<byte>, size: nat, off: nat, data: seq<byte>)
    requires size <= |image| && off + |data| <= |image| + |tail|
    ensures Overlay(image + tail, off, data)[..Max(size, off + |data|)] == ZeroFilled(image[..size], off, data)
            <==> GapIsZero(image + tail, size, off)
  {
    if off <= size {
      OverlayIsWritten(image, tail, size, off, data);
    } else {
      var a := Overlay(image + tail, off, data)[..off + |data|];
      assert a == (image + tail)[..off] + data;
      var b := ZeroFilled(image[..size], off, data);
      assert forall p :: size <= p < off ==> a[p] == (image + tail)[p] && b[p] == 0;
      assert forall p :: 0 <= p < size ==> a[p] == b[p];
      assert forall p :: off <= p < |a| ==> a[p] == data[p - off] == b[p];
    }
  }

  lemma OverlayNone(base: seq<byte>, off: nat)
    requires off <= |base|
    ensures Overlay(base, off, []) == base
  {
  }

  /** Two adjacent overlays are one, and an empty one changes nothing. */
  lemma OverlayJoin(base: seq<byte>, off: nat, a: seq<byte>, next: nat, b: seq<byte>)
    requires off + |a| <= |base| && next + |b| <= |base|
    requires b == [] || next == off + |a|
    ensures off + |a| + |b| <= |base|
    ensures Overlay(Overlay(base, off, a), next, b) == Overlay(base, off, a + b)
  {
  }

  /** An overlay that stays inside `base` does not see what follows it. */
  lemma OverlayAppend(base: seq<byte>, tail: seq<byte>, off: nat, a: seq<byte>)
    requires off + |a| <= |base|
    ensures Overlay(base + tail, off, a) == Overlay(base, off, a) + tail
  {
  }

  /** Cutting an overlaid image at the new size gives the grown file. */
  lemma OverlayIsWritten(image: seq<byte>, tail: seq<byte>, size: nat, off: nat, data: seq<byte>)
    requires off <= size <= |image|
    requires off + |data| <= |image| + |tail|
    ensures Overlay(image + tail, off, data)[..Max(size, off + |data|)] == Written(image[..size], off, data)
  {
  }

  lemma OverlayHead(base: seq<byte>, data: seq<byte>)
    requires |data| <= |base|
    ensures Overlay(base, 0, data)[..|data|] == data
  {
  }

  lemma SliceOfPrefix(b: seq<byte>, size: nat, off: nat, n: nat)
    requires off + n <= size <= |b|
    ensures Slice(b[..size], off, n) == Slice(b, off, n)
  {
  }

  lemma OverlayStep(base: seq<byte>, off: nat, data: seq<byte>, i: nat)
    requires off + |data| <= |base| && i < |data|
    ensures Overlay(base, off, data[..i])[off + i := data[i]] == Overlay(base, off, data[..i + 1])
  {
  }
}
