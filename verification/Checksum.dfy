/** The Internet checksum: a 16-bit ones'-complement sum by folding carries. */
module Checksum {
  import opened Bytes

  /** Big-endian fields. */
  function Be16(v: u16): (r: seq<byte>)
    ensures |r| == 2
  {
    [v / 256, v % 256]
  }

  function Word(hi: byte, lo: byte): u16 {
    hi * 256 + lo
  }

  /** The sum of the 16-bit words; a last odd byte counts as a high byte. */
  function Sum(data: seq<byte>): nat {
    if data == [] then 0
    else if |data| == 1 then Word(data[0], 0)
    else Word(data[0], data[1]) + Sum(data[2..])
  }

  /** The same sum byte by byte, for the first `n` bytes: a byte at an even place counts 256 times. */
  function Weighted(data: seq<byte>, n: nat): nat
    requires n <= |data|
  {
    if n == 0 then 0 else Weighted(data, n - 1) + Weight(data[n - 1], n - 1)
  }

  /** What byte `b` at place `k` counts. */
  function Weight(b: byte, k: nat): nat {
    if k % 2 == 0 then 256 * (b as int) else b
  }

  function Bytewise(data: seq<byte>): nat {
    Weighted(data, |data|)
  }

  lemma {:induction false} WeightedTail(data: seq<byte>, n: nat)
    requires n + 2 <= |data|
    ensures Weighted(data, n + 2) == data[0] * 256 + data[1] + Weighted(data[2..], n)
  {
    if n == 0 {
      assert Weighted(data, 1) == data[0] * 256 + Weighted(data, 0);
    } else {
      WeightedTail(data, n - 1);
    }
  }

  /** Whatever the number of bytes, even or odd, the word sum is that sum. */
  lemma {:induction false} SumIs(data: seq<byte>)
    ensures Sum(data) == Bytewise(data)
  {
    if |data| == 1 {
      assert Weighted(data, 0) == 0;
    } else if |data| >= 2 {
      SumIs(data[2..]);
      WeightedTail(data, |data| - 2);
    }
  }

  lemma {:induction false} WeightedPrefix(a: seq<byte>, b: seq<byte>, n: nat)
    requires n <= |a| && a <= b
    ensures Weighted(a, n) == Weighted(b, n)
  {
    if n > 0 {
      WeightedPrefix(a, b, n - 1);
    }
  }

  /** A zero byte behind the data changes nothing: the padding rule of RFC 1071, section 1. */
  lemma Padded(data: seq<byte>)
    ensures Sum(data + [0]) == Sum(data)
  {
    hide Sum, Weighted;
    SumIs(data);
    SumIs(data + [0]);
    WeightedPrefix(data, data + [0], |data|);
    LastByte(data + [0]);
  }

  lemma LastByte(data: seq<byte>)
    requires data != []
    ensures Bytewise(data) == Weighted(data, |data| - 1) + Weight(data[|data| - 1], |data| - 1)
  {
  }

  /** Ones'-complement value of a sum: its residue modulo 0xFFFF, where zero comes out as
      0xFFFF unless the sum itself is zero. */
  function Ones(n: nat): (r: u16)
    ensures r == 0 <==> n == 0
  {
    if n == 0 then 0 else (n - 1) % 0xFFFF + 1
  }

  lemma {:induction false} SumJoin(a: seq<byte>, b: seq<byte>)
    requires |a| % 2 == 0
    ensures Sum(a + b) == Sum(a) + Sum(b)
  {
    if a == [] {
      assert a + b == b;
    } else {
      assert (a + b)[2..] == a[2..] + b;
      SumJoin(a[2..], b);
    }
  }

  lemma {:induction false} SumBound(data: seq<byte>)
    ensures Sum(data) <= 0xFFFF * ((|data| + 1) / 2)
  {
    if |data| >= 2 {
      SumBound(data[2..]);
    }
  }

  /** One folding step keeps the value and makes the sum smaller. */
  lemma FoldStep(sum: nat)
    requires sum >= 0x1_0000
    ensures sum % 0x1_0000 + sum / 0x1_0000 < sum
    ensures Ones(sum % 0x1_0000 + sum / 0x1_0000) == Ones(sum)
  {
  }

  method ChecksumSeed(data: seq<byte>, seed: nat) returns (c: u16)
    requires seed + Sum(data) < 0x1_0000_0000
    ensures c == 0xFFFF - Ones(seed + Sum(data))
    ensures c == 0xFFFF - Ones(seed + Bytewise(data))
  {
    SumIs(data);
    hide Weighted, Bytewise;
    var sum: u32 := seed;
    var i := 0;
    while i + 1 < |data|
      invariant 0 <= i <= |data| && i % 2 == 0 && sum + Sum(data[i..]) == seed + Sum(data)
    {
      assert data[i..][2..] == data[i + 2..];
      sum := sum + Word(data[i], data[i + 1]);
      i := i + 2;
    }
    if i < |data| {
      sum := sum + Word(data[i], 0);
    }
    assert sum == seed + Sum(data);
    while sum / 0x1_0000 != 0
      invariant Ones(sum) == Ones(seed + Sum(data))
      decreases sum
    {
      FoldStep(sum);
      sum := sum % 0x1_0000 + sum / 0x1_0000;
    }
    c := 0xFFFF - sum;
  }

  /** The IPv4 pseudo-header of a transport checksum. */
  function PseudoHeader(src: seq<byte>, dst: seq<byte>, proto: byte, len: u16): seq<byte> {
    src + dst + [0, proto] + Be16(len)
  }

  lemma PseudoSum(src: seq<byte>, dst: seq<byte>, proto: byte, len: u16)
    requires |src| == 4 && |dst| == 4
    ensures Sum(PseudoHeader(src, dst, proto, len)) == Sum(src) + Sum(dst) + proto + len
  {
    SumJoin(src + dst + [0, proto], Be16(len));
    SumJoin(src + dst, [0, proto]);
    SumJoin(src, dst);
    assert Sum([0, proto]) == proto && Sum(Be16(len)) == len;
  }

  method PseudoSeed(src: seq<byte>, dst: seq<byte>, proto: byte, len: u16) returns (sum: u32)
    requires |src| == 4 && |dst| == 4
    ensures sum == Sum(PseudoHeader(src, dst, proto, len))
  {
    PseudoSum(src, dst, proto, len);
    sum := 0;
    for i := 0 to 2
      invariant sum + Sum(src[2 * i..]) == Sum(src) && sum <= i * 0xFFFF
    {
      assert src[2 * i..][2..] == src[2 * i + 2..];
      sum := sum + Word(src[2 * i], src[2 * i + 1]);
    }
    for i := 0 to 2
      invariant sum + Sum(dst[2 * i..]) == Sum(src) + Sum(dst) && sum <= (i + 2) * 0xFFFF
    {
      assert dst[2 * i..][2..] == dst[2 * i + 2..];
      sum := sum + Word(dst[2 * i], dst[2 * i + 1]);
    }
    sum := sum + proto;
    sum := sum + len;
  }

  /** Filling in the field adds its value to the sum. */
  lemma PatchSum(a: seq<byte>, b: seq<byte>, c: u16)
    requires |a| % 2 == 0
    ensures Sum(a + Be16(c) + b) == Sum(a + [0, 0] + b) + c
  {
    SumJoin(a + Be16(c), b);
    SumJoin(a + [0, 0], b);
    SumJoin(a, Be16(c));
    SumJoin(a, [0, 0]);
    assert Sum(Be16(c)) == c && Sum([0, 0]) == 0;
  }

  /** All ones is what a sum of zero modulo 0xFFFF comes out as. */
  lemma AllOnes(n: nat)
    ensures Ones(n) == 0xFFFF <==> n > 0 && n % 0xFFFF == 0
  {
  }

  /** A message whose field holds the checksum taken with the field zero verifies. */
  lemma Verifies(a: seq<byte>, b: seq<byte>, c: u16, seed: nat)
    requires |a| % 2 == 0 && c == 0xFFFF - Ones(seed + Sum(a + [0, 0] + b))
    ensures Ones(seed + Sum(a + Be16(c) + b)) == 0xFFFF
  {
    hide Ones, Sum;
    PatchSum(a, b, c);
    OnesOfComplement(seed + Sum(a + [0, 0] + b));
  }

  lemma OnesOfComplement(n: nat)
    ensures Ones(n + (0xFFFF - Ones(n))) == 0xFFFF
  {
  }

  /** The field comes out as zero exactly when the words sum to a positive multiple of
      0xFFFF. */
  lemma ZeroField(n: nat)
    ensures 0xFFFF - Ones(n) == 0 <==> n > 0 && n % 0xFFFF == 0
  {
  }
}
