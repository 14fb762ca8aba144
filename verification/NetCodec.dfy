/** Ethernet, IPv4, TCP and UDP frames: building them in the outbound queue and decoding them. */
module NetCodec {
  import opened Bytes
  import opened Checksum
  import T = TcpSpec

  const FRAME_MAX := 1518
  const MAX_FRAMES := 4
  const IPPROTO_TCP: byte := 6
  const IPPROTO_UDP: byte := 17

  type Mac = s: seq<byte> | |s| == 6 witness [0, 0, 0, 0, 0, 0]
  type Ip = s: seq<byte> | |s| == 4 witness [0, 0, 0, 0]

  function Be32(v: u32): (r: seq<byte>)
    ensures |r| == 4
  {
    Be16(v / 0x1_0000) + Be16(v % 0x1_0000)
  }

  function Get16(b: seq<byte>, off: nat): u16
    requires off + 2 <= |b|
  {
    Word(b[off], b[off + 1])
  }

  function Get32(b: seq<byte>, off: nat): u32
    requires off + 4 <= |b|
  {
    Get16(b, off) * 0x1_0000 + Get16(b, off + 2)
  }

  // ── Headers ────────────────────────────────────────────────────────────────

  function EthHdr(dst: Mac, src: Mac): (r: seq<byte>)
    ensures |r| == 14
  {
    dst + src + [0x08, 0x00]
  }

  /** The IPv4 header up to its checksum, and after it. */
  function IpHead(len: u16, id: u16, proto: byte): (r: seq<byte>)
    ensures |r| == 10
  {
    [0x45, 0] + Be16(len) + Be16(id) + [0, 0, 64, proto]
  }

  function IpHdr(len: u16, id: u16, proto: byte, src: Ip, dst: Ip, sum: u16): (r: seq<byte>)
    ensures |r| == 20
  {
    IpHead(len, id, proto) + Be16(sum) + (src + dst)
  }

  function IpSum(len: u16, id: u16, proto: byte, src: Ip, dst: Ip): u16 {
    0xFFFF - Ones(Sum(IpHdr(len, id, proto, src, dst, 0)))
  }

  /** What a TCP frame says. */
  datatype TcpMsg = TcpMsg(dstMac: Mac, srcMac: Mac, srcIp: Ip, dstIp: Ip, id: u16, srcPort: u16, dstPort: u16,
                           seqNo: u32, ack: u32, flags: byte, window: u16, payload: seq<byte>)

  function TcpHead(m: TcpMsg): (r: seq<byte>)
    ensures |r| == 16
  {
    Be16(m.srcPort) + Be16(m.dstPort) + Be32(m.seqNo) + Be32(m.ack) + [0x50, m.flags] + Be16(m.window)
  }

  /** TCP header and payload with this checksum. */
  function TcpPart(m: TcpMsg, sum: u16): (r: seq<byte>)
    ensures |r| == 20 + |m.payload|
  {
    TcpHead(m) + Be16(sum) + ([0, 0] + m.payload)
  }

  function Pseudo(src: Ip, dst: Ip, proto: byte, len: u16): nat {
    Sum(PseudoHeader(src, dst, proto, len))
  }

  function TcpSum(m: TcpMsg): u16
    requires |m.payload| <= FRAME_MAX - 54
  {
    0xFFFF - Ones(Pseudo(m.srcIp, m.dstIp, IPPROTO_TCP, 20 + |m.payload|) + Sum(TcpPart(m, 0)))
  }

  function TcpFrame(m: TcpMsg): (r: seq<byte>)
    requires |m.payload| <= FRAME_MAX - 54
    ensures |r| == 54 + |m.payload|
  {
    var len := 40 + |m.payload|;
    EthHdr(m.dstMac, m.srcMac)
    + IpHdr(len, m.id, IPPROTO_TCP, m.srcIp, m.dstIp, IpSum(len, m.id, IPPROTO_TCP, m.srcIp, m.dstIp))
    + TcpPart(m, TcpSum(m))
  }

  /** What a UDP frame says. */
  datatype UdpMsg = UdpMsg(dstMac: Mac, srcMac: Mac, srcIp: Ip, dstIp: Ip, id: u16, srcPort: u16, dstPort: u16,
      payload: seq<byte>)

  function UdpHead(m: UdpMsg): (r: seq<byte>)
    requires |m.payload| <= FRAME_MAX - 42
    ensures |r| == 6
  {
    Be16(m.srcPort) + Be16(m.dstPort) + Be16(8 + |m.payload|)
  }

  function UdpPart(m: UdpMsg, sum: u16): (r: seq<byte>)
    requires |m.payload| <= FRAME_MAX - 42
    ensures |r| == 8 + |m.payload|
  {
    UdpHead(m) + Be16(sum) + m.payload
  }

  function UdpSum(m: UdpMsg): u16
    requires |m.payload| <= FRAME_MAX - 42
  {
    0xFFFF - Ones(Pseudo(m.srcIp, m.dstIp, IPPROTO_UDP, 8 + |m.payload|) + Sum(UdpPart(m, 0)))
  }

  function UdpFrame(m: UdpMsg): (r: seq<byte>)
    requires |m.payload| <= FRAME_MAX - 42
    ensures |r| == 42 + |m.payload|
  {
    var len := 28 + |m.payload|;
    EthHdr(m.dstMac, m.srcMac)
    + IpHdr(len, m.id, IPPROTO_UDP, m.srcIp, m.dstIp, IpSum(len, m.id, IPPROTO_UDP, m.srcIp, m.dstIp))
    + UdpPart(m, UdpSum(m))
  }

  // ── Frames verify ──────────────────────────────────────────────────────────

  lemma IpVerifies(len: u16, id: u16, proto: byte, src: Ip, dst: Ip)
    ensures 0xFFFF - Ones(Bytewise(IpHdr(len, id, proto, src, dst, IpSum(len, id, proto, src, dst)))) == 0
  {
    hide Ones, Sum, IpHead, Bytewise;
    Verifies(IpHead(len, id, proto), src + dst, IpSum(len, id, proto, src, dst), 0);
    SumIs(IpHdr(len, id, proto, src, dst, IpSum(len, id, proto, src, dst)));
  }

  /** The bytes a transport checksum covers: the pseudo-header of RFC 768 and RFC 793, then the part. */
  function Covered(src: Ip, dst: Ip, proto: byte, part: seq<byte>): seq<byte>
    requires |part| < 0x1_0000
  {
    src + dst + [0, proto, |part| / 256, |part| % 256] + part
  }

  lemma CoveredSum(src: Ip, dst: Ip, proto: byte, part: seq<byte>)
    requires |part| < 0x1_0000
    ensures Bytewise(Covered(src, dst, proto, part)) == Pseudo(src, dst, proto, |part|) + Sum(part)
  {
    hide Sum, Bytewise, Covered, PseudoHeader;
    CoveredIs(src, dst, proto, part);
    SumIs(Covered(src, dst, proto, part));
    SumJoin(PseudoHeader(src, dst, proto, |part|), part);
  }

  lemma CoveredIs(src: Ip, dst: Ip, proto: byte, part: seq<byte>)
    requires |part| < 0x1_0000
    ensures Covered(src, dst, proto, part) == PseudoHeader(src, dst, proto, |part|) + part
    ensures |PseudoHeader(src, dst, proto, |part|)| == 12
  {
  }

  /** Recomputing a TCP frame's checksum over the stored bytes gives zero. */
  lemma TcpVerifies(m: TcpMsg)
    requires |m.payload| <= FRAME_MAX - 54
    ensures 0xFFFF - Ones(Bytewise(Covered(m.srcIp, m.dstIp, 6, TcpPart(m, TcpSum(m))))) == 0
  {
    hide Ones, Sum, TcpHead, PseudoHeader, Bytewise, Covered;
    CoveredSum(m.srcIp, m.dstIp, IPPROTO_TCP, TcpPart(m, TcpSum(m)));
    Verifies(TcpHead(m), [0, 0] + m.payload, TcpSum(m), Pseudo(m.srcIp, m.dstIp, IPPROTO_TCP, 20 + |m.payload|));
  }

  lemma UdpVerifies(m: UdpMsg)
    requires |m.payload| <= FRAME_MAX - 42
    ensures 0xFFFF - Ones(Bytewise(Covered(m.srcIp, m.dstIp, 17, UdpPart(m, UdpSum(m))))) == 0
  {
    hide Ones, Sum, UdpHead, PseudoHeader, Bytewise, Covered;
    CoveredSum(m.srcIp, m.dstIp, IPPROTO_UDP, UdpPart(m, UdpSum(m)));
    Verifies(UdpHead(m), m.payload, UdpSum(m), Pseudo(m.srcIp, m.dstIp, IPPROTO_UDP, 8 + |m.payload|));
  }

  /** The stored UDP checksum is zero, which a receiver reads as "none", exactly when the
      covered words sum to a multiple of 0xFFFF. */
  lemma UdpZero(m: UdpMsg)
    requires |m.payload| <= FRAME_MAX - 42
    ensures UdpSum(m) == 0 <==> Bytewise(Covered(m.srcIp, m.dstIp, 17, UdpPart(m, 0))) % 0xFFFF == 0
  {
    hide Bytewise, Covered;
    CoveredSum(m.srcIp, m.dstIp, IPPROTO_UDP, UdpPart(m, 0));
    var len: u16 := 8 + |m.payload|;
    PseudoSum(m.srcIp, m.dstIp, IPPROTO_UDP, len);
    var n := Pseudo(m.srcIp, m.dstIp, IPPROTO_UDP, len) + Sum(UdpPart(m, 0));
    ZeroField(n);
    hide Ones, Sum, UdpPart;
    assert n > 0;
  }

  lemma WordSum(v: u16)
    ensures Sum(Be16(v)) == v
  {
  }

  lemma UdpPartSum(m: UdpMsg)
    requires |m.payload| <= FRAME_MAX - 42
    ensures Sum(UdpPart(m, 0)) == m.srcPort + m.dstPort + 8 + |m.payload| + Sum(m.payload)
  {
    hide Sum, Be16;
    var a, b, c, d := Be16(m.srcPort), Be16(m.dstPort), Be16(8 + |m.payload|), Be16(0);
    WordSum(m.srcPort);
    WordSum(m.dstPort);
    WordSum(8 + |m.payload|);
    WordSum(0);
    SumJoin(a, b);
    SumJoin(a + b, c);
    SumJoin(a + b + c, d);
    SumJoin(a + b + c + d, m.payload);
  }

  lemma FourSum(a: byte, b: byte, c: byte, d: byte)
    ensures Sum([a, b, c, d]) == Word(a, b) + Word(c, d)
  {
    SumJoin([a, b], [c, d]);
    assert [a, b] + [c, d] == [a, b, c, d];
    assert Sum([a, b]) == Word(a, b) && Sum([c, d]) == Word(c, d);
  }

  /** An empty datagram from 10.0.2.15 port 1000 to 10.0.2.2 port 58341 is sent without a checksum. */
  lemma ZeroChecksum(dst: Mac, src: Mac, id: u16)
    ensures UdpSum(UdpMsg(dst, src, [10, 0, 2, 15], [10, 0, 2, 2], id, 1000, 58341, [])) == 0
  {
    hide UdpSum, Ones, UdpPart, PseudoHeader, Bytewise, Covered;
    var m := UdpMsg(dst, src, [10, 0, 2, 15], [10, 0, 2, 2], id, 1000, 58341, []);
    assert Sum([]) == 0;
    hide Sum;
    PseudoSum(m.srcIp, m.dstIp, IPPROTO_UDP, 8);
    FourSum(10, 0, 2, 15);
    FourSum(10, 0, 2, 2);
    UdpPartSum(m);
    CoveredSum(m.srcIp, m.dstIp, IPPROTO_UDP, UdpPart(m, 0));
    UdpZero(m);
  }

  // ── Decoding ───────────────────────────────────────────────────────────────

  datatype Eth = Eth(dst: Mac, src: Mac, etype: u16)

  function ParseEth(frame: seq<byte>): Option<Eth> {
    if |frame| < 14 then None else Some(Eth(frame[0..6], frame[6..12], Get16(frame, 12)))
  }

  datatype Ip4 = Ip4(src: Ip, dst: Ip, proto: byte, total: nat, transport: nat)

  function ParseIp4(frame: seq<byte>): Option<Ip4> {
    if |frame| < 34 || frame[14] / 16 != 4 then None
    else
      var total := Get16(frame, 16);
      var ihl := frame[14] % 16 * 4;
      if |frame| < 14 + total || ihl < 20 || 14 + ihl > |frame| then None
      else Some(Ip4(frame[26..30], frame[30..34], frame[23], total, 14 + ihl))
  }

  /** `Panicked`: a header claims less than its own length. */
  datatype Decoded =
    | Rejected
    | Panicked
    | Segment(srcMac: Mac, srcIp: Ip, srcPort: u16, dstPort: u16, seqNo: u32, ack: u32, flags: byte, window: u16,
        payload: seq<byte>)
    | Datagram(srcIp: Ip, srcPort: u16, dstPort: u16, payload: seq<byte>)

  function DecodeTcp(seg: seq<byte>, srcMac: Mac, srcIp: Ip): Decoded {
    if |seg| < 20 then Rejected
    else
      var off := seg[12] / 16 * 4;
      if off < 20 || off > |seg| then Rejected
      else Segment(srcMac, srcIp, Get16(seg, 0), Get16(seg, 2), Get32(seg, 4), Get32(seg, 8), seg[13],
          Get16(seg, 14), seg[off..])
  }

  function DecodeUdp(seg: seq<byte>, srcIp: Ip): Decoded {
    if |seg| < 8 then Rejected
    else
      var len := Min(Get16(seg, 4), |seg|);
      if len < 8 then Panicked
      else Datagram(srcIp, Get16(seg, 0), Get16(seg, 2), seg[8..len])
  }

  /** A frame as the stack at (`mac`, `ip`) takes it for TCP or UDP. */
  function Decode(frame: seq<byte>, mac: Mac, ip: Ip): Decoded {
    match ParseEth(frame)
    case None => Rejected
    case Some(e) =>
      if (e.dst != mac && e.dst != [0xFF, 0xFF, 0xFF, 0xFF, 0xFF, 0xFF]) || e.etype != 0x0800 then Rejected
      else
        match ParseIp4(frame)
        case None => Rejected
        case Some(h) =>
          if h.dst != ip then Rejected
          else if Min(|frame|, 14 + h.total) < h.transport then Panicked
          else
            var seg := frame[h.transport..Min(|frame|, 14 + h.total)];
            if h.proto == IPPROTO_TCP then DecodeTcp(seg, e.src, h.src)
            else if h.proto == IPPROTO_UDP then DecodeUdp(seg, h.src)
            else Rejected
  }

  /** A whole IPv4 packet for the stack at (`mac`, `ip`). */
  predicate ForUs(frame: seq<byte>, mac: Mac, ip: Ip) {
    && |frame| >= 34 && (frame[..6] == mac || frame[..6] == [0xFF, 0xFF, 0xFF, 0xFF, 0xFF, 0xFF])
       && Get16(frame, 12) == 0x0800
    && frame[14] / 16 == 4 && 5 <= frame[14] % 16 && 14 + frame[14] % 16 * 4 <= |frame|
    && 14 + Get16(frame, 16) <= |frame| && frame[30..34] == ip
  }

  /** The stack panics on exactly these packets for it: the total length is less than the header
      length, or a UDP datagram says it is shorter than its header. */
  lemma Panics(frame: seq<byte>, mac: Mac, ip: Ip)
    ensures Decode(frame, mac, ip).Panicked? <==>
      && ForUs(frame, mac, ip)
      && var head, total := frame[14] % 16 * 4, Get16(frame, 16);
         || total < head
         || (frame[23] == IPPROTO_UDP && total >= head + 8 && Get16(frame, 14 + head + 4) < 8)
  {
    if |frame| >= 34 {
      assert frame[0..6] == frame[..6];
      var head, total := frame[14] % 16 * 4, Get16(frame, 16);
      if head <= total && 14 + total <= |frame| {
        var seg := frame[14 + head..14 + total];
        assert |seg| >= 8 ==> Get16(seg, 4) == Get16(frame, 14 + head + 4);
      }
    }
  }

  /** A UDP datagram of 8 bytes that says it has 7. */
  lemma ShortDatagram(dst: Mac, src: Mac, from: Ip, to: Ip, sum: u16)
    ensures Decode(EthHdr(dst, src) + IpHdr(28, 0, IPPROTO_UDP, from, to, sum) + [0, 7, 0, 7, 0, 7, 0, 0], dst,
        to).Panicked?
  {
    var e, i, t := EthHdr(dst, src), IpHdr(28, 0, IPPROTO_UDP, from, to, sum), [0, 7, 0, 7, 0, 7, 0, 0];
    var frame := e + i + t;
    hide EthHdr, IpHdr;
    assert frame[..14] == e && frame[14..34] == i && frame[34..42] == t;
    EthBack(frame, dst, src);
    IpBack(frame, 28, 0, IPPROTO_UDP, from, to, sum);
  }

  lemma Be32Back(v: u32, b: seq<byte>, off: nat)
    requires off + 4 <= |b| && b[off..off + 4] == Be32(v)
    ensures Get32(b, off) == v
  {
  }

  lemma TcpPartBack(m: TcpMsg, sum: u16, mac: Mac, ip: Ip)
    ensures DecodeTcp(TcpPart(m, sum), mac, ip)
         == Segment(mac, ip, m.srcPort, m.dstPort, m.seqNo, m.ack, m.flags, m.window, m.payload)
  {
    hide Be32, Be16, Get32, Get16, TcpPart;
    var seg := TcpPart(m, sum);
    TcpPlaces(m, sum);
    Be16Back(m.srcPort, seg, 0);
    Be16Back(m.dstPort, seg, 2);
    Be32Back(m.seqNo, seg, 4);
    Be32Back(m.ack, seg, 8);
    Be16Back(m.window, seg, 14);
  }

  lemma Be16Back(v: u16, b: seq<byte>, off: nat)
    requires off + 2 <= |b| && b[off..off + 2] == Be16(v)
    ensures Get16(b, off) == v
  {
    assert b[off..off + 2][0] == b[off] && b[off..off + 2][1] == b[off + 1];
  }

  /** Where the fields of a TCP header stand. */
  lemma TcpPlaces(m: TcpMsg, sum: u16)
    ensures var seg := TcpPart(m, sum);
      && seg[0..2] == Be16(m.srcPort) && seg[2..4] == Be16(m.dstPort) && seg[4..8] == Be32(m.seqNo)
      && seg[8..12] == Be32(m.ack) && seg[12] == 0x50 && seg[13] == m.flags && seg[14..16] == Be16(m.window)
      && seg[20..] == m.payload
  {
    hide Be32, Be16;
    var seg, head := TcpPart(m, sum), TcpHead(m);
    assert seg[..16] == head;
    assert head[0..2] == Be16(m.srcPort) && head[2..4] == Be16(m.dstPort);
    assert head[4..8] == Be32(m.seqNo) && head[8..12] == Be32(m.ack) && head[14..16] == Be16(m.window);
    assert forall i, j :: 0 <= i <= j <= 16 ==> seg[i..j] == seg[..16][i..j];
    assert seg[12] == head[12] && seg[13] == head[13];
  }

  lemma IpBack(frame: seq<byte>, len: u16, id: u16, proto: byte, src: Ip, dst: Ip, sum: u16)
    requires |frame| == 14 + len && len >= 20 && frame[14..34] == IpHdr(len, id, proto, src, dst, sum)
    ensures ParseIp4(frame) == Some(Ip4(src, dst, proto, len, 34))
  {
    var h := IpHdr(len, id, proto, src, dst, sum);
    assert forall k :: 0 <= k < 20 ==> frame[14 + k] == h[k];
    assert frame[14] == h[0] == 0x45 && frame[16] == h[2] && frame[17] == h[3] && frame[23] == h[9] == proto;
    assert frame[26..30] == h[12..16] == src && frame[30..34] == h[16..20] == dst;
  }

  lemma EthBack(frame: seq<byte>, dst: Mac, src: Mac)
    requires |frame| >= 14 && frame[..14] == EthHdr(dst, src)
    ensures ParseEth(frame) == Some(Eth(dst, src, 0x0800))
  {
    var h := EthHdr(dst, src);
    assert frame[0..6] == h[0..6] == dst && frame[6..12] == h[6..12] == src;
    assert frame[12] == h[12] == 0x08 && frame[13] == h[13] == 0x00;
  }

  /** Decoding a built frame at its destination gives back all it says. */
  lemma RoundTrip(m: TcpMsg)
    requires |m.payload| <= FRAME_MAX - 54
    ensures Decode(TcpFrame(m), m.dstMac, m.dstIp)
         == Segment(m.srcMac, m.srcIp, m.srcPort, m.dstPort, m.seqNo, m.ack, m.flags, m.window, m.payload)
  {
    var len: u16 := 40 + |m.payload|;
    var e, i, t := EthHdr(m.dstMac, m.srcMac),
                   IpHdr(len, m.id, IPPROTO_TCP, m.srcIp, m.dstIp, IpSum(len, m.id, IPPROTO_TCP, m.srcIp, m.dstIp)),
                       TcpPart(m, TcpSum(m));
    var frame := TcpFrame(m);
    assert frame == e + i + t;
    hide EthHdr, IpHdr, TcpPart, IpSum, TcpSum, TcpFrame;
    assert frame[..14] == e && frame[14..34] == i && frame[34..] == t;
    EthBack(frame, m.dstMac, m.srcMac);
    IpBack(frame, len, m.id, IPPROTO_TCP, m.srcIp, m.dstIp, IpSum(len, m.id, IPPROTO_TCP, m.srcIp, m.dstIp));
    hide ParseEth, ParseIp4, DecodeTcp;
    TcpPartBack(m, TcpSum(m), m.srcMac, m.srcIp);
    assert frame[34..|frame|] == t;
  }

  lemma UdpPartBack(m: UdpMsg, sum: u16, ip: Ip)
    requires |m.payload| <= FRAME_MAX - 42
    ensures DecodeUdp(UdpPart(m, sum), ip) == Datagram(ip, m.srcPort, m.dstPort, m.payload)
  {
    var seg := UdpPart(m, sum);
    var head := UdpHead(m);
    assert forall k :: 0 <= k < 6 ==> seg[k] == head[k];
    assert seg[8..|seg|] == m.payload;
  }

  /** So does decoding a built UDP frame. */
  lemma UdpRoundTrip(m: UdpMsg)
    requires |m.payload| <= FRAME_MAX - 42
    ensures Decode(UdpFrame(m), m.dstMac, m.dstIp) == Datagram(m.srcIp, m.srcPort, m.dstPort, m.payload)
  {
    var len: u16 := 28 + |m.payload|;
    var e, i, t := EthHdr(m.dstMac, m.srcMac),
                   IpHdr(len, m.id, IPPROTO_UDP, m.srcIp, m.dstIp, IpSum(len, m.id, IPPROTO_UDP, m.srcIp, m.dstIp)),
                       UdpPart(m, UdpSum(m));
    var frame := UdpFrame(m);
    assert frame == e + i + t;
    hide EthHdr, IpHdr, UdpPart, IpSum, UdpSum, UdpFrame;
    assert frame[..14] == e && frame[14..34] == i && frame[34..] == t;
    EthBack(frame, m.dstMac, m.srcMac);
    IpBack(frame, len, m.id, IPPROTO_UDP, m.srcIp, m.dstIp, IpSum(len, m.id, IPPROTO_UDP, m.srcIp, m.dstIp));
    hide ParseEth, ParseIp4, DecodeUdp;
    UdpPartBack(m, UdpSum(m), m.srcIp);
    assert frame[34..|frame|] == t;
  }

  // ── Segments on the wire ───────────────────────────────────────────────────

  /** Control flags: FIN, SYN, RST, PSH and ACK from the lowest bit up. */
  function FlagsOf(g: T.Seg, psh: bool): byte {
    (if g.fin then 1 else 0) + (if g.syn then 2 else 0) + (if g.rst then 4 else 0) + (if psh then 8 else 0)
        + (if g.ackFlag then 16 else 0)
  }

  /** The segment handed to the socket. */
  function SegmentOf(d: Decoded): T.Seg
    requires d.Segment?
  {
    T.Seg(d.seqNo, d.ack, d.flags / 2 % 2 == 1, d.flags / 16 % 2 == 1, d.flags % 2 == 1, d.flags / 4 % 2 == 1,
        d.window, d.payload)
  }

  /** A segment put on the wire by one socket reaches the other as the same segment. */
  lemma SegmentRoundTrip(m: TcpMsg, g: T.Seg, psh: bool)
    requires |m.payload| <= FRAME_MAX - 54
    requires m.seqNo == g.seqNo && m.ack == g.ack && m.flags == FlagsOf(g, psh) && m.window == g.window
        && m.payload == g.payload
    ensures var d := Decode(TcpFrame(m), m.dstMac, m.dstIp); d.Segment? && SegmentOf(d) == g
  {
    hide Decode, TcpFrame;
    RoundTrip(m);
  }

  // ── The outbound queue ─────────────────────────────────────────────────────

  /** Writes `data` at `at`; `from` marks where the text being assembled starts. */
  method Put(b: array<byte>, ghost from: nat, at: nat, data: seq<byte>)
    requires from <= at && at + |data| <= b.Length
    modifies b
    ensures b[from..at + |data|] == old(b[from..at]) + data
    ensures forall k :: 0 <= k < at || at + |data| <= k < b.Length ==> b[k] == old(b[k])
  {
    var i := 0;
    while i < |data|
      invariant 0 <= i <= |data|
      invariant forall k :: 0 <= k < i ==> b[at + k] == data[k]
      invariant forall k :: 0 <= k < at || at + |data| <= k < b.Length ==> b[k] == old(b[k])
    {
      b[at + i] := data[i];
      i := i + 1;
    }
  }

  /** Nothing outside `lo..hi` changed. */
  twostate predicate OnlyPart(b: array<byte>, lo: nat, hi: nat)
    reads b
  {
    forall k :: 0 <= k < b.Length && (k < lo || hi <= k) ==> b[k] == old(b[k])
  }

  method PutEth(b: array<byte>, at: nat, dst: Mac, src: Mac)
    requires at + 14 <= b.Length
    modifies b
    ensures b[at..at + 14] == EthHdr(dst, src) && OnlyPart(b, at, at + 14)
  {
    Put(b, at, at, dst);
    Put(b, at, at + 6, src);
    Put(b, at, at + 12, Be16(0x0800));
  }

  /** Fills the checksum field of the part `x`, zero, `z` that starts at `at`. */
  method Seal(b: array<byte>, at: nat, n: nat, field: nat, seed: nat, ghost x: seq<byte>, ghost z: seq<byte>)
        returns (sum: u16)
    requires at + n <= b.Length && |x| == field && n == |x| + 2 + |z| && b[at..at + n] == x + Be16(0) + z
    requires seed + Sum(b[at..at + n]) < 0x1_0000_0000
    modifies b
    ensures sum == 0xFFFF - Ones(seed + Sum(x + Be16(0) + z))
    ensures b[at..at + n] == x + Be16(sum) + z && OnlyPart(b, at, at + n)
  {
    hide Ones, Sum, Be16;
    sum := ChecksumSeed(b[at..at + n], seed);
    ghost var b1 := b[..];
    Put(b, at, at + field, Be16(sum));
    Patched(b1, b[..], at, x, Be16(0), Be16(sum), z);
  }

  method PutIp(b: array<byte>, at: nat, len: u16, id: u16, proto: byte, src: Ip, dst: Ip)
    requires at + 20 <= b.Length
    modifies b
    ensures b[at..at + 20] == IpHdr(len, id, proto, src, dst, IpSum(len, id, proto, src, dst))
        && OnlyPart(b, at, at + 20)
  {
    DraftIp(b, at, len, id, proto, src, dst);
    SumBound(b[at..at + 20]);
    hide IpHead, Ones, Sum, Be16;
    var sum := Seal(b, at, 20, 10, 0, IpHead(len, id, proto), src + dst);
  }

  method DraftIp(b: array<byte>, at: nat, len: u16, id: u16, proto: byte, src: Ip, dst: Ip)
    requires at + 20 <= b.Length
    modifies b
    ensures b[at..at + 20] == IpHdr(len, id, proto, src, dst, 0) && OnlyPart(b, at, at + 20)
  {
    PutIpHead(b, at, len, id, proto);
    hide IpHead, Be16;
    Put(b, at, at + 10, Be16(0));
    Put(b, at, at + 12, src);
    Put(b, at, at + 16, dst);
  }

  method PutIpHead(b: array<byte>, at: nat, len: u16, id: u16, proto: byte)
    requires at + 10 <= b.Length
    modifies b
    ensures b[at..at + 10] == IpHead(len, id, proto) && OnlyPart(b, at, at + 10)
  {
    Put(b, at, at, [0x45, 0]);
    Put(b, at, at + 2, Be16(len));
    Put(b, at, at + 4, Be16(id));
    Put(b, at, at + 6, [0, 0, 64, proto]);
  }

  /** Replacing the middle of a part in place. */
  lemma Patched(b: seq<byte>, b': seq<byte>, at: nat, x: seq<byte>, y: seq<byte>, y': seq<byte>, z: seq<byte>)
    requires |b| == |b'| && |y| == |y'| && at + |x| + |y| + |z| <= |b| && b[at..at + |x| + |y| + |z|] == x + y + z
    requires b'[at..at + |x| + |y|] == b[at..at + |x|] + y'
    requires forall k :: 0 <= k < at + |x| || at + |x| + |y| <= k < |b| ==> b'[k] == b[k]
    ensures b'[at..at + |x| + |y| + |z|] == x + y' + z
  {
    var n := |x| + |y|;
    assert b[at..at + n + |z|][..|x|] == b[at..at + |x|] == x;
    assert b[at..at + n + |z|][n..] == b[at + n..at + n + |z|] == z;
    assert b'[at + n..at + n + |z|] == b[at + n..at + n + |z|];
    assert b'[at..at + n + |z|] == b'[at..at + n] + b'[at + n..at + n + |z|];
  }

  lemma SumsFit(src: Ip, dst: Ip, proto: byte, part: seq<byte>)
    requires |part| <= FRAME_MAX
    ensures Pseudo(src, dst, proto, |part|) + Sum(part) < 0x1_0000_0000
  {
    PseudoSum(src, dst, proto, |part|);
    SumBound(src);
    SumBound(dst);
    SumBound(part);
    hide Sum;
  }

  method PutTcp(b: array<byte>, at: nat, m: TcpMsg)
    requires |m.payload| <= FRAME_MAX - 54 && at + 20 + |m.payload| <= b.Length
    modifies b
    ensures b[at..at + 20 + |m.payload|] == TcpPart(m, TcpSum(m)) && OnlyPart(b, at, at + 20 + |m.payload|)
  {
    hide Ones, Sum, PseudoHeader, TcpHead, Be16;
    var n := |m.payload|;
    DraftTcp(b, at, m);
    ghost var part := TcpPart(m, 0);
    SumsFit(m.srcIp, m.dstIp, IPPROTO_TCP, part);
    var seed := PseudoSeed(m.srcIp, m.dstIp, IPPROTO_TCP, 20 + n);
    var sum := Seal(b, at, 20 + n, 16, seed, TcpHead(m), [0, 0] + m.payload);
  }

  method DraftTcp(b: array<byte>, at: nat, m: TcpMsg)
    requires at + 20 + |m.payload| <= b.Length
    modifies b
    ensures b[at..at + 20 + |m.payload|] == TcpPart(m, 0) && OnlyPart(b, at, at + 20 + |m.payload|)
  {
    PutTcpHead(b, at, m);
    hide TcpHead, Be16;
    Put(b, at, at + 16, Be16(0));
    Put(b, at, at + 18, [0, 0]);
    Put(b, at, at + 20, m.payload);
  }

  method PutTcpHead(b: array<byte>, at: nat, m: TcpMsg)
    requires at + 16 <= b.Length
    modifies b
    ensures b[at..at + 16] == TcpHead(m) && OnlyPart(b, at, at + 16)
  {
    hide Be16, Be32;
    Put(b, at, at, Be16(m.srcPort));
    Put(b, at, at + 2, Be16(m.dstPort));
    Put(b, at, at + 4, Be32(m.seqNo));
    Put(b, at, at + 8, Be32(m.ack));
    Put(b, at, at + 12, [0x50, m.flags]);
    Put(b, at, at + 14, Be16(m.window));
  }

  method PutUdp(b: array<byte>, at: nat, m: UdpMsg)
    requires |m.payload| <= FRAME_MAX - 42 && at + 8 + |m.payload| <= b.Length
    modifies b
    ensures b[at..at + 8 + |m.payload|] == UdpPart(m, UdpSum(m)) && OnlyPart(b, at, at + 8 + |m.payload|)
  {
    hide Ones, Sum, PseudoHeader, UdpHead, Be16;
    var n := |m.payload|;
    DraftUdp(b, at, m);
    ghost var part := UdpPart(m, 0);
    SumsFit(m.srcIp, m.dstIp, IPPROTO_UDP, part);
    var seed := PseudoSeed(m.srcIp, m.dstIp, IPPROTO_UDP, 8 + n);
    var sum := Seal(b, at, 8 + n, 6, seed, UdpHead(m), m.payload);
  }

  method DraftUdp(b: array<byte>, at: nat, m: UdpMsg)
    requires |m.payload| <= FRAME_MAX - 42 && at + 8 + |m.payload| <= b.Length
    modifies b
    ensures b[at..at + 8 + |m.payload|] == UdpPart(m, 0) && OnlyPart(b, at, at + 8 + |m.payload|)
  {
    hide Be16;
    Put(b, at, at, Be16(m.srcPort));
    Put(b, at, at + 2, Be16(m.dstPort));
    Put(b, at, at + 4, Be16(8 + |m.payload|));
    Put(b, at, at + 6, Be16(0));
    Put(b, at, at + 8, m.payload);
  }

  /** The ends of `n` frames in a buffer of `limit` bytes. */
  ghost predicate EndsOk(off: seq<nat>, n: nat, limit: nat) {
    n < |off| && off[n] <= limit && (n > 0 ==> off[n - 1] <= off[n] && EndsOk(off, n - 1, off[n]))
  }

  ghost function FramesOf(b: seq<byte>, off: seq<nat>, n: nat): seq<seq<byte>>
    requires EndsOk(off, n, |b|)
  {
    if n == 0 then [] else (EndsLoose(off, n - 1, off[n], |b|); FramesOf(b, off, n - 1) + [b[off[n - 1]..off[n]]])
  }

  lemma EndsLoose(off: seq<nat>, n: nat, limit: nat, more: nat)
    requires EndsOk(off, n, limit) && limit <= more
    ensures EndsOk(off, n, more)
  {
  }

  /** Earlier frames stay when only later bytes and ends change. */
  lemma {:induction false} FramesKept(b: seq<byte>, b': seq<byte>, off: seq<nat>, off': seq<nat>, n: nat)
    requires EndsOk(off, n, |b|) && |b'| == |b| && n < |off'| && off'[..n + 1] == off[..n + 1]
    requires forall k :: 0 <= k < off[n] ==> b'[k] == b[k]
    ensures EndsOk(off', n, |b|) && FramesOf(b', off', n) == FramesOf(b, off, n)
  {
    assert off'[n] == off'[..n + 1][n] == off[n];
    if n > 0 {
      EndsLoose(off, n - 1, off[n], |b|);
      assert off'[..n] == off'[..n + 1][..n] == off[..n];
      assert off'[n - 1] == off'[..n][n - 1] == off[n - 1];
      FramesKept(b, b', off, off', n - 1);
      EndsTight(off', n - 1, |b|, off[n]);
      assert b'[off[n - 1]..off[n]] == b[off[n - 1]..off[n]];
    }
  }

  lemma EndsTight(off: seq<nat>, n: nat, limit: nat, less: nat)
    requires EndsOk(off, n, limit) && off[n] <= less
    ensures EndsOk(off, n, less)
  {
  }

  /** Frames in one scratch buffer, by their cumulative ends. */
  class OutQueue {
    const buf: array<byte>
    const off: array<nat>
    var n: nat

    ghost predicate Ok()
      reads this, off
    {
      && buf.Length == FRAME_MAX && off.Length == MAX_FRAMES + 1 && (buf as object) != (off as object)
         && n <= MAX_FRAMES
      && off[0] == 0 && EndsOk(off[..], n, FRAME_MAX)
    }

    /** The queued frames, in order. */
    ghost function Frames(): (r: seq<seq<byte>>)
      requires Ok()
      reads this, buf, off
    {
      FramesOf(buf[..], off[..], n)
    }

    constructor ()
      ensures Ok() && n == 0 && fresh(buf) && fresh(off)
    {
      buf, off, n := new byte[FRAME_MAX](_ => 0), new nat[MAX_FRAMES + 1](_ => 0), 0;
    }

    /** Reserves `len` bytes for one more frame, if there is room. */
    method Push(len: nat) returns (start: Option<nat>)
      requires Ok()
      modifies this`n, off
      ensures Ok() && (start.None? <==> old(n) == MAX_FRAMES || old(off[n]) + len > FRAME_MAX)
      ensures start.None? ==> n == old(n) && off[..] == old(off[..])
      ensures start.Some? ==> n == old(n) + 1 && start.value == old(off[n]) && off[n] == start.value + len
      ensures off[..old(n) + 1] == old(off[..n + 1])
    {
      if n >= MAX_FRAMES { return None; }
      var s := off[n];
      if s + len > FRAME_MAX { return None; }
      ghost var o := off[..];
      off[n + 1] := s + len;
      FramesKept(buf[..], buf[..], o, off[..], n);
      EndsTight(off[..], n, FRAME_MAX, s + len);
      n := n + 1;
      start := Some(s);
    }

    method Clear()
      requires Ok()
      modifies this`n, off
      ensures Ok() && Frames() == []
    {
      n := 0;
      off[0] := 0;
    }

    /** Builds a TCP frame behind those already queued. */
    method PushTcpFrame(m: TcpMsg) returns (ok: bool)
      requires Ok()
      modifies this`n, buf, off
      ensures Ok() && ok == (old(n) < MAX_FRAMES && old(off[n]) + 54 + |m.payload| <= FRAME_MAX)
      ensures ok ==> |m.payload| <= FRAME_MAX - 54
      ensures Frames() == if ok then old(Frames()) + [TcpFrame(m)] else old(Frames())
    {
      var r := Push(54 + |m.payload|);
      if r.None? { return false; }
      hide TcpFrame;
      ghost var b0, o0, k := old(buf[..]), old(off[..]), old(n);
      BuildTcp(buf, r.value, m);
      Appended(b0, buf[..], o0, off[..], k, TcpFrame(m));
      ok := true;
    }

    method PushUdpFrame(m: UdpMsg) returns (ok: bool)
      requires Ok()
      modifies this`n, buf, off
      ensures Ok() && ok == (old(n) < MAX_FRAMES && old(off[n]) + 42 + |m.payload| <= FRAME_MAX)
      ensures ok ==> |m.payload| <= FRAME_MAX - 42
      ensures Frames() == if ok then old(Frames()) + [UdpFrame(m)] else old(Frames())
    {
      var r := Push(42 + |m.payload|);
      if r.None? { return false; }
      hide UdpFrame;
      ghost var b0, o0, k := old(buf[..]), old(off[..]), old(n);
      BuildUdp(buf, r.value, m);
      Appended(b0, buf[..], o0, off[..], k, UdpFrame(m));
      ok := true;
    }
  }

  /** The queue now ends with the frame built behind the others. */
  lemma Appended(b: seq<byte>, b': seq<byte>, off: seq<nat>, off': seq<nat>, n: nat, frame: seq<byte>)
    requires EndsOk(off, n, |b|) && |b'| == |b| && n + 1 < |off'| && off'[..n + 1] == off[..n + 1]
    requires off'[n + 1] == off[n] + |frame| <= |b| && b'[off[n]..off[n] + |frame|] == frame
    requires forall k :: 0 <= k < off[n] ==> b'[k] == b[k]
    ensures EndsOk(off', n + 1, |b'|) && FramesOf(b', off', n + 1) == FramesOf(b, off, n) + [frame]
  {
    FramesKept(b, b', off, off', n);
    assert off'[n] == off'[..n + 1][n] == off[n];
    EndsTight(off', n, |b|, off'[n + 1]);
  }

  lemma Glue(b: seq<byte>, i: nat, j: nat, k: nat, l: nat)
    requires i <= j <= k <= l <= |b|
    ensures b[i..l] == b[i..j] + b[j..k] + b[k..l]
  {
  }

  method BuildTcp(b: array<byte>, s: nat, m: TcpMsg)
    requires |m.payload| <= FRAME_MAX - 54 && s + 54 + |m.payload| <= b.Length
    modifies b
    ensures b[s..s + 54 + |m.payload|] == TcpFrame(m) && OnlyPart(b, s, s + 54 + |m.payload|)
  {
    hide EthHdr, IpHdr, TcpPart, IpSum, TcpSum;
    var n := |m.payload|;
    PutEth(b, s, m.dstMac, m.srcMac);
    ghost var e := b[s..s + 14];
    PutIp(b, s + 14, 40 + n, m.id, IPPROTO_TCP, m.srcIp, m.dstIp);
    ghost var h := b[s + 14..s + 34];
    assert b[s..s + 14] == e;
    PutTcp(b, s + 34, m);
    assert b[s..s + 14] == e && b[s + 14..s + 34] == h;
    Glue(b[..], s, s + 14, s + 34, s + 54 + n);
  }

  method BuildUdp(b: array<byte>, s: nat, m: UdpMsg)
    requires |m.payload| <= FRAME_MAX - 42 && s + 42 + |m.payload| <= b.Length
    modifies b
    ensures b[s..s + 42 + |m.payload|] == UdpFrame(m) && OnlyPart(b, s, s + 42 + |m.payload|)
  {
    hide EthHdr, IpHdr, UdpPart, IpSum, UdpSum;
    var n := |m.payload|;
    PutEth(b, s, m.dstMac, m.srcMac);
    ghost var e := b[s..s + 14];
    PutIp(b, s + 14, 28 + n, m.id, IPPROTO_UDP, m.srcIp, m.dstIp);
    ghost var h := b[s + 14..s + 34];
    assert b[s..s + 14] == e;
    PutUdp(b, s + 34, m);
    assert b[s..s + 14] == e && b[s + 14..s + 34] == h;
    Glue(b[..], s, s + 14, s + 34, s + 42 + n);
  }
}
