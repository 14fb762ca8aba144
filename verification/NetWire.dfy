/** Frames byte by byte, as RFC 791, RFC 768 and RFC 9293 lay them out: what is sent and what is taken. */
module NetWire {
  import opened Bytes
  import opened Checksum
  import opened NetCodec
  import T = TcpSpec

  /** The big-endian number in the `n` bytes at `i`. */
  function Num(b: seq<byte>, i: nat, n: nat): nat
    requires i + n <= |b|
  {
    if n == 0 then 0 else Num(b, i, n - 1) * 256 + b[i + n - 1]
  }

  lemma NumTwo(b: seq<byte>, i: nat)
    requires i + 2 <= |b|
    ensures Num(b, i, 2) == Get16(b, i) == (b[i] as int) * 256 + b[i + 1]
  {
    assert Num(b, i, 1) == Num(b, i, 0) * 256 + b[i];
  }

  lemma NumFour(b: seq<byte>, i: nat)
    requires i + 4 <= |b|
    ensures Num(b, i, 4) == Get32(b, i)
  {
    NumTwo(b, i);
    NumTwo(b, i + 2);
    assert Num(b, i, 3) == Num(b, i, 2) * 256 + b[i + 2];
  }

  // ── Sending ────────────────────────────────────────────────────────────────

  /** An Ethernet and an IPv4 header for a packet of `len` bytes. */
  predicate Headers(f: seq<byte>, dstMac: Mac, srcMac: Mac, len: nat, id: nat, proto: byte, src: Ip, dst: Ip) {
    && |f| == 14 + len && len >= 20
    && f[0..6] == dstMac && f[6..12] == srcMac && f[12] == 8 && f[13] == 0
    && f[14] == 0x45 && f[15] == 0 && Num(f, 16, 2) == len && Num(f, 18, 2) == id
    && f[20] == 0 && f[21] == 0 && f[22] == 64 && f[23] == proto && f[26..30] == src && f[30..34] == dst
    && Bytewise(f[14..34]) % 0xFFFF == 0
  }

  lemma IpWire(len: u16, id: u16, proto: byte, src: Ip, dst: Ip, sum: u16)
    ensures var h := IpHdr(len, id, proto, src, dst, sum);
      && h[0] == 0x45 && h[1] == 0 && h[2..4] == Be16(len) && h[4..6] == Be16(id) && h[6] == 0 && h[7] == 0
      && h[8] == 64 && h[9] == proto && h[12..16] == src && h[16..20] == dst
  {
    hide Be16;
    var h, k := IpHdr(len, id, proto, src, dst, sum), IpHead(len, id, proto);
    assert h[..10] == k;
    assert k[2..4] == Be16(len) && k[4..6] == Be16(id);
    assert h[2..4] == h[..10][2..4] && h[4..6] == h[..10][4..6];
    assert h[12..] == src + dst;
  }

  /** The parts of a frame keep their places. */
  lemma Part(f: seq<byte>, lo: nat, hi: nat, i: nat, j: nat)
    requires lo <= hi <= |f| && i <= j <= hi - lo
    ensures f[lo..hi][i..j] == f[lo + i..lo + j]
  {
    var a, b := f[lo..hi][i..j], f[lo + i..lo + j];
    assert |a| == |b| && forall k :: 0 <= k < |a| ==> a[k] == f[lo + i + k] == b[k];
  }

  lemma HeadersWire(f: seq<byte>, dstMac: Mac, srcMac: Mac, len: u16, id: u16, proto: byte, src: Ip, dst: Ip)
    requires |f| == 14 + len && len >= 20 && f[..14] == EthHdr(dstMac, srcMac)
    requires f[14..34] == IpHdr(len, id, proto, src, dst, IpSum(len, id, proto, src, dst))
    ensures Headers(f, dstMac, srcMac, len, id, proto, src, dst)
  {
    hide IpHdr, IpSum, EthHdr, Bytewise, Ones, Be16, Num;
    EthBack(f, dstMac, srcMac);
    NumTwo(f, 12);
    EthBytes(dstMac, srcMac);
    var h := f[14..34];
    IpWire(len, id, proto, src, dst, IpSum(len, id, proto, src, dst));
    IpVerifies(len, id, proto, src, dst);
    AllOnes(Bytewise(h));
    Part(f, 14, 34, 2, 4);
    Part(f, 14, 34, 4, 6);
    Part(f, 14, 34, 12, 16);
    Part(f, 14, 34, 16, 20);
    NumTwo(f, 16);
    NumTwo(f, 18);
    Be16Back(len, f, 16);
    Be16Back(id, f, 18);
    assert forall k :: 0 <= k < 20 ==> f[14 + k] == h[k];
    assert f[14] == h[0] && f[15] == h[1] && f[20] == h[6] && f[21] == h[7] && f[22] == h[8] && f[23] == h[9];
    assert f[..14][12] == f[12] && f[..14][13] == f[13];
  }

  lemma EthBytes(dst: Mac, src: Mac)
    ensures var h := EthHdr(dst, src); |h| == 14 && h[12] == 8 && h[13] == 0
  {
  }

  /** A TCP frame as it goes out. */
  predicate TcpBytes(f: seq<byte>, m: TcpMsg)
    requires |m.payload| <= FRAME_MAX - 54
  {
    var n := |m.payload|;
    && Headers(f, m.dstMac, m.srcMac, 40 + n, m.id, 6, m.srcIp, m.dstIp)
    && Num(f, 34, 2) == m.srcPort && Num(f, 36, 2) == m.dstPort && Num(f, 38, 4) == m.seqNo && Num(f, 42, 4) == m.ack
    && f[46] == 0x50 && f[47] == m.flags && Num(f, 48, 2) == m.window && f[52] == 0 && f[53] == 0
       && f[54..] == m.payload
    && Bytewise(m.srcIp + m.dstIp + [0, 6, (20 + n) / 256, (20 + n) % 256] + f[34..]) % 0xFFFF == 0
  }

  lemma UrgentZero(m: TcpMsg, sum: u16)
    ensures TcpPart(m, sum)[18] == 0 && TcpPart(m, sum)[19] == 0
  {
  }

  lemma TcpWire(m: TcpMsg)
    requires |m.payload| <= FRAME_MAX - 54
    ensures TcpBytes(TcpFrame(m), m)
  {
    hide Num, Headers, Bytewise, Ones, TcpPart, IpHdr, EthHdr, IpSum, TcpSum, Be16, Be32;
    var f, t := TcpFrame(m), TcpPart(m, TcpSum(m));
    TcpParts(m);
    HeadersWire(f, m.dstMac, m.srcMac, 40 + |m.payload|, m.id, 6, m.srcIp, m.dstIp);
    TcpFields(f, t, m);
    TcpVerifies(m);
    AllOnes(Bytewise(Covered(m.srcIp, m.dstIp, 6, t)));
  }

  lemma TcpParts(m: TcpMsg)
    requires |m.payload| <= FRAME_MAX - 54
    ensures var f := TcpFrame(m);
      && f[..14] == EthHdr(m.dstMac, m.srcMac) && f[34..] == TcpPart(m, TcpSum(m))
      && f[14..34] == IpHdr(40 + |m.payload|, m.id, 6, m.srcIp, m.dstIp,
                            IpSum(40 + |m.payload|, m.id, 6, m.srcIp, m.dstIp))
  {
    hide EthHdr, IpHdr, TcpPart, IpSum, TcpSum;
  }

  lemma TcpFields(f: seq<byte>, t: seq<byte>, m: TcpMsg)
    requires |m.payload| <= FRAME_MAX - 54 && |f| == 54 + |m.payload| && f[34..] == t == TcpPart(m, TcpSum(m))
    ensures Num(f, 34, 2) == m.srcPort && Num(f, 36, 2) == m.dstPort
    ensures Num(f, 38, 4) == m.seqNo && Num(f, 42, 4) == m.ack && Num(f, 48, 2) == m.window
    ensures f[46] == 0x50 && f[47] == m.flags && f[52] == 0 && f[53] == 0 && f[54..] == m.payload
  {
    hide Num, TcpPart, TcpSum, Be16, Be32;
    TcpPlaces(m, TcpSum(m));
    UrgentZero(m, TcpSum(m));
    var n := |f|;
    assert f[34..] == f[34..n];
    Part(f, 34, n, 0, 2);
    Part(f, 34, n, 2, 4);
    Part(f, 34, n, 4, 8);
    Part(f, 34, n, 8, 12);
    Part(f, 34, n, 14, 16);
    Be16Back(m.srcPort, f, 34);
    Be16Back(m.dstPort, f, 36);
    Be32Back(m.seqNo, f, 38);
    Be32Back(m.ack, f, 42);
    Be16Back(m.window, f, 48);
    NumTwo(f, 34);
    NumTwo(f, 36);
    NumFour(f, 38);
    NumFour(f, 42);
    NumTwo(f, 48);
    assert forall k :: 0 <= k < |t| ==> f[34 + k] == t[k];
    assert f[46] == t[12] && f[47] == t[13] && f[52] == t[18] && f[53] == t[19];
    assert f[54..] == f[34..][20..];
  }

  /** A UDP frame as it goes out. */
  predicate UdpBytes(f: seq<byte>, m: UdpMsg)
    requires |m.payload| <= FRAME_MAX - 42
  {
    var n := |m.payload|;
    && Headers(f, m.dstMac, m.srcMac, 28 + n, m.id, 17, m.srcIp, m.dstIp)
    && Num(f, 34, 2) == m.srcPort && Num(f, 36, 2) == m.dstPort && Num(f, 38, 2) == 8 + n && f[42..] == m.payload
    && Bytewise(m.srcIp + m.dstIp + [0, 17, (8 + n) / 256, (8 + n) % 256] + f[34..]) % 0xFFFF == 0
  }

  lemma UdpPlaces(m: UdpMsg, sum: u16)
    requires |m.payload| <= FRAME_MAX - 42
    ensures var seg := UdpPart(m, sum);
      && seg[0..2] == Be16(m.srcPort) && seg[2..4] == Be16(m.dstPort) && seg[4..6] == Be16(8 + |m.payload|)
      && seg[8..] == m.payload
  {
    hide Be16;
    var seg, head := UdpPart(m, sum), UdpHead(m);
    assert seg[..6] == head;
    assert head[0..2] == Be16(m.srcPort) && head[2..4] == Be16(m.dstPort) && head[4..6] == Be16(8 + |m.payload|);
    assert forall i, j :: 0 <= i <= j <= 6 ==> seg[i..j] == seg[..6][i..j];
  }

  lemma UdpParts(m: UdpMsg)
    requires |m.payload| <= FRAME_MAX - 42
    ensures var f := UdpFrame(m);
      && f[..14] == EthHdr(m.dstMac, m.srcMac) && f[34..] == UdpPart(m, UdpSum(m))
      && f[14..34] == IpHdr(28 + |m.payload|, m.id, 17, m.srcIp, m.dstIp,
                            IpSum(28 + |m.payload|, m.id, 17, m.srcIp, m.dstIp))
  {
    hide EthHdr, IpHdr, UdpPart, IpSum, UdpSum;
  }

  lemma UdpWire(m: UdpMsg)
    requires |m.payload| <= FRAME_MAX - 42
    ensures UdpBytes(UdpFrame(m), m)
  {
    hide Num, Headers, Bytewise, Ones, UdpPart, IpHdr, EthHdr, IpSum, UdpSum, Be16;
    var f, t := UdpFrame(m), UdpPart(m, UdpSum(m));
    UdpParts(m);
    HeadersWire(f, m.dstMac, m.srcMac, 28 + |m.payload|, m.id, 17, m.srcIp, m.dstIp);
    UdpPlaces(m, UdpSum(m));
    assert f[34..] == f[34..|f|];
    Part(f, 34, |f|, 0, 2);
    Part(f, 34, |f|, 2, 4);
    Part(f, 34, |f|, 4, 6);
    Be16Back(m.srcPort, f, 34);
    Be16Back(m.dstPort, f, 36);
    Be16Back(8 + |m.payload|, f, 38);
    NumTwo(f, 34);
    NumTwo(f, 36);
    NumTwo(f, 38);
    assert f[42..] == f[34..][8..];
    UdpVerifies(m);
    AllOnes(Bytewise(Covered(m.srcIp, m.dstIp, 17, t)));
  }

  /** The flag bytes of the segments a socket sends. */
  lemma FlagBytes(s: T.Sock, n: u32, data: seq<byte>)
    ensures FlagsOf(T.SynSeg(s), false) == 0x02 && FlagsOf(T.SynAckSeg(s), false) == 0x12
    ensures FlagsOf(T.AckSeg(s), false) == 0x10 && FlagsOf(T.DataSeg(s, n, data), true) == 0x18
    ensures FlagsOf(T.FinSeg(s, n), false) == 0x11
  {
  }

  // ── Taking ─────────────────────────────────────────────────────────────────

  /** Bytes of the IPv4 header, and of the packet, as its fields say. */
  function HeadLen(f: seq<byte>): nat
    requires |f| >= 34
  {
    f[14] % 16 * 4
  }

  function Total(f: seq<byte>): nat
    requires |f| >= 34
  {
    Num(f, 16, 2)
  }

  /** A whole IPv4 packet of protocol `proto` for the stack at (`mac`, `ip`). */
  predicate Packet(f: seq<byte>, mac: Mac, ip: Ip, proto: byte) {
    && |f| >= 34 && (f[0..6] == mac || f[0..6] == [0xFF, 0xFF, 0xFF, 0xFF, 0xFF, 0xFF])
    && f[12] == 8 && f[13] == 0 && f[14] / 16 == 4 && f[23] == proto && f[30..34] == ip
    && 20 <= HeadLen(f) <= Total(f) && 14 + Total(f) <= |f|
  }

  /** Where the transport part starts and which bytes it has. */
  lemma DecodeParts(f: seq<byte>, mac: Mac, ip: Ip)
    requires |f| >= 34
    ensures (Packet(f, mac, ip, 6) || Packet(f, mac, ip, 17)) ==>
      var seg := f[14 + HeadLen(f)..14 + Total(f)];
      Decode(f, mac, ip) == if f[23] == 6 then DecodeTcp(seg, f[6..12], f[26..30]) else DecodeUdp(seg, f[26..30])
    ensures Decode(f, mac, ip).Segment? ==> Packet(f, mac, ip, 6)
    ensures Decode(f, mac, ip).Datagram? ==> Packet(f, mac, ip, 17)
  {
    hide Num, DecodeTcp, DecodeUdp;
    NumTwo(f, 12);
    NumTwo(f, 16);
    TcpOrRejected(f[14 + Min(HeadLen(f), |f| - 14)..], f[6..12], f[26..30]);
    if ParseIp4(f).Some? && HeadLen(f) <= Total(f) {
      var seg := f[14 + HeadLen(f)..14 + Total(f)];
      TcpOrRejected(seg, f[6..12], f[26..30]);
    }
  }

  lemma TcpOrRejected(seg: seq<byte>, mac: Mac, ip: Ip)
    ensures !DecodeTcp(seg, mac, ip).Datagram? && !DecodeUdp(seg, ip).Segment?
  {
  }

  /** A frame is taken for a segment exactly if it is a whole TCP packet for this stack whose data
      offset lies inside it; then the fields are those at their places in the header. */
  lemma TcpDecoded(f: seq<byte>, mac: Mac, ip: Ip)
    ensures Decode(f, mac, ip).Segment? <==>
      && Packet(f, mac, ip, 6) && Total(f) >= HeadLen(f) + 20
      && 20 <= f[14 + HeadLen(f) + 12] / 16 * 4 <= Total(f) - HeadLen(f)
    ensures Decode(f, mac, ip).Segment? ==>
      var d, at := Decode(f, mac, ip), 14 + HeadLen(f);
      && d.srcMac == f[6..12] && d.srcIp == f[26..30] && d.srcPort == Num(f, at, 2) && d.dstPort == Num(f, at + 2, 2)
      && d.seqNo == Num(f, at + 4, 4) && d.ack == Num(f, at + 8, 4) && d.flags == f[at + 13]
      && d.window == Num(f, at + 14, 2) && d.payload == f[at + f[at + 12] / 16 * 4..14 + Total(f)]
  {
    hide Num, Decode, Get16, Get32;
    if |f| >= 34 {
      DecodeParts(f, mac, ip);
      if Packet(f, mac, ip, 6) {
        TcpAt(f, 14 + HeadLen(f), 14 + Total(f), f[6..12], f[26..30]);
      }
    } else {
      ShortFrame(f, mac, ip);
    }
  }

  lemma ShortFrame(f: seq<byte>, mac: Mac, ip: Ip)
    requires |f| < 34
    ensures Decode(f, mac, ip) == Rejected
  {
  }

  lemma TcpAt(f: seq<byte>, lo: nat, hi: nat, mac: Mac, ip: Ip)
    requires lo <= hi <= |f|
    ensures var d := DecodeTcp(f[lo..hi], mac, ip);
      && (d.Segment? <==> hi - lo >= 20 && 20 <= f[lo + 12] / 16 * 4 <= hi - lo) && (d.Segment? || d == Rejected)
      && (d.Segment? ==>
            && d.srcMac == mac && d.srcIp == ip && d.srcPort == Num(f, lo, 2) && d.dstPort == Num(f, lo + 2, 2)
            && d.seqNo == Num(f, lo + 4, 4) && d.ack == Num(f, lo + 8, 4) && d.flags == f[lo + 13]
            && d.window == Num(f, lo + 14, 2) && d.payload == f[lo + f[lo + 12] / 16 * 4..hi])
  {
    hide Num;
    if hi - lo >= 20 {
      NumTwo(f, lo);
      NumTwo(f, lo + 2);
      NumFour(f, lo + 4);
      NumFour(f, lo + 8);
      NumTwo(f, lo + 14);
      var off := f[lo + 12] / 16 * 4;
      if off <= hi - lo {
        Part(f, lo, hi, off, hi - lo);
        assert f[lo..hi][off..] == f[lo..hi][off..hi - lo];
      }
    }
  }

  /** A frame is taken for a datagram exactly if it is a whole UDP packet for this stack with a length
      of at least a header; a length beyond the packet is cut. */
  lemma UdpDecoded(f: seq<byte>, mac: Mac, ip: Ip)
    ensures Decode(f, mac, ip).Datagram? <==>
      Packet(f, mac, ip, 17) && Total(f) >= HeadLen(f) + 8 && Num(f, 14 + HeadLen(f) + 4, 2) >= 8
    ensures Decode(f, mac, ip).Datagram? ==>
      var d, at := Decode(f, mac, ip), 14 + HeadLen(f);
      && d.srcIp == f[26..30] && d.srcPort == Num(f, at, 2) && d.dstPort == Num(f, at + 2, 2)
      && d.payload == f[at + 8..Min(at + Num(f, at + 4, 2), 14 + Total(f))]
  {
    hide Num, Decode, Get16;
    if |f| >= 34 {
      DecodeParts(f, mac, ip);
      if Packet(f, mac, ip, 17) {
        UdpAt(f, 14 + HeadLen(f), 14 + Total(f), f[26..30]);
      }
    } else {
      ShortFrame(f, mac, ip);
    }
  }

  lemma UdpAt(f: seq<byte>, lo: nat, hi: nat, ip: Ip)
    requires lo <= hi <= |f|
    ensures var d := DecodeUdp(f[lo..hi], ip);
      && (d.Datagram? <==> hi - lo >= 8 && Num(f, lo + 4, 2) >= 8)
      && (d.Datagram? ==>
            && d.srcIp == ip && d.srcPort == Num(f, lo, 2) && d.dstPort == Num(f, lo + 2, 2)
            && d.payload == f[lo + 8..Min(lo + Num(f, lo + 4, 2), hi)])
  {
    hide Num;
    if hi - lo >= 8 {
      NumTwo(f, lo);
      NumTwo(f, lo + 2);
      NumTwo(f, lo + 4);
      var len := Min(Num(f, lo + 4, 2), hi - lo);
      if len >= 8 {
        Part(f, lo, hi, 8, len);
      }
    }
  }
}
