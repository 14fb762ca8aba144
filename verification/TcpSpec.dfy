/** The TCP socket as a value: what each call does to it and what it emits. */
module TcpSpec {
  import opened Bytes

  const TX_BUF := 512
  const RX_BUF := 512
  const TCP_MSS := 512
  const WINDOW: u16 := 1024
  const RTO_TICKS := 800
  const MAX_RETRIES := 8

  // ── Sequence numbers ───────────────────────────────────────────────────────

  function Add32(a: nat, n: nat): u32 {
    (a + n) % 0x1_0000_0000
  }

  function Sub32(a: u32, b: u32): u32 {
    (a - b) % 0x1_0000_0000
  }

  predicate SeqLt(a: u32, b: u32) {
    Sub32(a, b) >= 0x8000_0000
  }

  predicate SeqGt(a: u32, b: u32) {
    SeqLt(b, a)
  }

  predicate SeqGe(a: u32, b: u32) {
    a == b || SeqGt(a, b)
  }

  // ── Socket ─────────────────────────────────────────────────────────────────

  datatype TcpState = Listen | SynSent | SynRcvd | Established | CloseWait

  datatype Seg = Seg(seqNo: u32, ack: u32, syn: bool, ackFlag: bool, fin: bool, rst: bool, window: u16,
      payload: seq<byte>)

  /** `out` and `rx` are the used parts of the two buffers. */
  datatype Sock = Sock(
    state: TcpState, macKnown: bool, iss: u32, dataBase: u32, sndNxt: u32, sent: nat, inflight: nat, rcvNxt: u32,
    peerWnd: nat, synAcked: bool, finReq: bool, finSent: bool, finSeq: u32, finAcked: bool, rxFin: bool,
    out: seq<byte>, rx: seq<byte>, deadline: nat, retries: nat, dead: bool)

  /** A socket after a call, and the segments it handed to the frame queue. */
  datatype Step = Step(s: Sock, segs: seq<Seg>)

  function Blank(): Sock {
    Sock(Listen, false, 0, 0, 0, 0, 0, 0, 4096, false, false, false, 0, false, false, [], [], 0, 0, false)
  }

  function Connect(iss: u32, now: nat): Sock {
    Blank().(state := SynSent, iss := iss, sndNxt := Add32(iss, 1), dataBase := Add32(iss, 1),
        deadline := now + RTO_TICKS)
  }

  /** What every call keeps. */
  predicate Valid(s: Sock) {
    && s.inflight == s.sent <= |s.out| <= TX_BUF && |s.rx| <= RX_BUF
    && s.sndNxt == Add32(s.dataBase, |s.out|)
    && (s.dead || s.retries <= MAX_RETRIES)
  }

  // ── Calls of the application ───────────────────────────────────────────────

  predicate Open(s: Sock) {
    s.state == Established || s.state == CloseWait
  }

  predicate CanWrite(s: Sock, data: seq<byte>) {
    Open(s) && |s.out| + |data| <= TX_BUF
  }

  function AppWrite(s: Sock, data: seq<byte>): Sock {
    if CanWrite(s, data) then s.(out := s.out + data, sndNxt := Add32(s.dataBase, |s.out| + |data|)) else s
  }

  function AppRead(s: Sock, n: nat): Sock {
    s.(rx := s.rx[Min(|s.rx|, n)..])
  }

  // ── Segments to send ───────────────────────────────────────────────────────

  function SynSeg(s: Sock): Seg {
    Seg(s.iss, 0, true, false, false, false, WINDOW, [])
  }

  function SynAckSeg(s: Sock): Seg {
    Seg(s.iss, s.rcvNxt, true, true, false, false, WINDOW, [])
  }

  function AckSeg(s: Sock): Seg {
    Seg(s.sndNxt, s.rcvNxt, false, true, false, false, WINDOW, [])
  }

  function DataSeg(s: Sock, seqNo: u32, data: seq<byte>): Seg {
    Seg(seqNo, s.rcvNxt, false, true, false, false, WINDOW, data)
  }

  function FinSeg(s: Sock, seqNo: u32): Seg {
    Seg(seqNo, s.rcvNxt, false, true, true, false, WINDOW, [])
  }

  // ── Segments received ──────────────────────────────────────────────────────

  /** How many queued bytes the acknowledgement removes. */
  function Advance(s: Sock, ack: u32): nat {
    Min(Sub32(ack, s.dataBase), s.sent)
  }

  function Consume(s: Sock, adv: nat): Sock
    requires adv <= s.sent <= |s.out|
  {
    s.(out := s.out[adv..], dataBase := Add32(s.dataBase, adv), sent := s.sent - adv,
        inflight := Max(s.inflight - adv, 0),
       sndNxt := Add32(Add32(s.dataBase, adv), |s.out| - adv))
  }

  predicate AcksSyn(s: Sock, ack: u32) {
    !s.synAcked && (s.state == SynSent || s.state == SynRcvd) && ack == s.sndNxt
  }

  predicate AcksFin(s: Sock, ack: u32) {
    s.finSent && SeqGt(ack, s.finSeq) && !s.finAcked
  }

  function DropAcked(s: Sock, ack: u32): Sock
    requires Valid(s)
  {
    if Advance(s, ack) > 0 then Consume(s, Advance(s, ack)) else s
  }

  function NoteSyn(s: Sock, ack: u32): Sock {
    if AcksSyn(s, ack) then s.(synAcked := true, deadline := 0) else s
  }

  function NoteFin(s: Sock, ack: u32): Sock {
    if AcksFin(s, ack) then s.(finAcked := true, dead := s.dead || s.rxFin) else s
  }

  function RxAck(s: Sock, ack: u32): Sock
    requires Valid(s)
  {
    NoteFin(NoteSyn(DropAcked(s, ack), ack), ack)
  }

  /** Bytes of a payload there is room for. */
  function Room(s: Sock): nat
    requires |s.rx| <= RX_BUF
  {
    RX_BUF - |s.rx|
  }

  function RxData(s: Sock, g: Seg): Step
    requires Valid(s)
  {
    var s1 := if g.seqNo == s.rcvNxt
      then s.(rx := s.rx + g.payload[..Min(|g.payload|, Room(s))], rcvNxt := Add32(s.rcvNxt, |g.payload|)) else s;
    Step(s1, [AckSeg(s1)])
  }

  function RxFin(s: Sock, g: Seg, synPhase: bool): Step {
    var finSeq := Add32(g.seqNo, |g.payload|);
    var s1 := if SeqGe(finSeq, s.rcvNxt)
      then s.(rcvNxt := Add32(finSeq, 1), rxFin := true,
              state := if s.state == Established && !synPhase then CloseWait else s.state,
              dead := s.dead || (s.finSent && s.finAcked)) else s;
    Step(s1, [AckSeg(s1)])
  }

  function RxSyn(s: Sock, g: Seg, now: nat, iss: u32): Step {
    var s1 := Sock(SynRcvd, true, iss, Add32(iss, 1), Add32(iss, 1), 0, 0, Add32(g.seqNo, 1), s.peerWnd, false,
        false, false,
                   s.finSeq, false, false, [], [], now + RTO_TICKS, 0, s.dead);
    Step(s1, [SynAckSeg(s1)])
  }

  function RxSynAck(s: Sock, g: Seg): Step {
    var s1 := s.(rcvNxt := Add32(g.seqNo, 1));
    if g.ackFlag && g.ack == Add32(s.iss, 1) then
      var s2 := s1.(synAcked := true, deadline := 0);
      Step(s2, [AckSeg(s2)])
    else Step(s1, [])
  }

  /** Payload first, then the FIN. */
  function RxBody(s: Sock, g: Seg, synPhase: bool): Step
    requires Valid(s)
  {
    var d := if g.payload == [] then Step(s, []) else RxData(s, g);
    if g.fin then var f := RxFin(d.s, g, synPhase); Step(f.s, d.segs + f.segs) else d
  }

  function InSynSent(s: Sock, g: Seg): Step
    requires Valid(s)
  {
    var r := RxSynAck(s, g);
    var s1 := if r.s.synAcked then r.s.(state := Established) else r.s;
    var b := RxBody(s1, g, true);
    Step(b.s, r.segs + b.segs)
  }

  function InSynRcvd(s: Sock, g: Seg, now: nat): Step
    requires Valid(s)
  {
    if g.syn then
      var s1 := s.(rcvNxt := Add32(g.seqNo, 1), deadline := now + RTO_TICKS, retries := 0);
      Step(s1, [SynAckSeg(s1)])
    else if s.synAcked then RxBody(s.(state := Established), g, true)
    else Step(s, [])
  }

  function RxState(s: Sock, g: Seg, now: nat, iss: u32): Step
    requires Valid(s)
  {
    match s.state
    case Listen => if g.syn then RxSyn(s, g, now, iss) else Step(s.(dead := true), [])
    case SynSent => if g.syn then InSynSent(s, g) else Step(s, [])
    case SynRcvd => InSynRcvd(s, g, now)
    case _ =>
      var b := RxBody(s, g, false);
      Step(b.s, (if g.syn then [AckSeg(s)] else []) + b.segs)
  }

  function RxSegment(s: Sock, g: Seg, now: nat, iss: u32): Step
    requires Valid(s)
  {
    if s.dead then Step(s, [])
    else if g.rst then Step(s.(dead := true), [])
    else if g.ackFlag then
      RxAckValid(s.(peerWnd := g.window), g.ack);
      RxState(RxAck(s.(peerWnd := g.window), g.ack), g, now, iss)
    else RxState(s, g, now, iss)
  }

  lemma RxAckValid(s: Sock, ack: u32)
    requires Valid(s)
    ensures Valid(RxAck(s, ack))
  {
    DropValid(s, ack);
    NotesKeep(DropAcked(s, ack), ack);
    NotesKeep(NoteSyn(DropAcked(s, ack), ack), ack);
    hide Valid, NoteSyn, NoteFin, DropAcked;
  }

  lemma DropValid(s: Sock, ack: u32)
    requires Valid(s)
    ensures Valid(DropAcked(s, ack))
  {
  }

  lemma NotesKeep(s: Sock, ack: u32)
    requires Valid(s)
    ensures Valid(NoteSyn(s, ack)) && Valid(NoteFin(s, ack))
  {
  }

  // ── Sending ────────────────────────────────────────────────────────────────

  /** One more retransmission, or the end of the connection. */
  function Retry(s: Sock, now: nat, g: Seg): Step {
    if s.retries + 1 > MAX_RETRIES then Step(s.(retries := s.retries + 1, dead := true), [])
    else Step(s.(retries := s.retries + 1, deadline := now + RTO_TICKS), [g])
  }

  function Chunk(s: Sock): nat
    requires s.sent <= |s.out|
  {
    Min(Min(|s.out| - s.sent, TCP_MSS), s.peerWnd)
  }

  function Poll(s: Sock, now: nat): Step
    requires Valid(s)
  {
    if s.dead || !s.macKnown then Step(s, [])
    else if !s.synAcked && (s.state == SynSent || s.state == SynRcvd) then
      if now >= s.deadline then Retry(s, now, if s.state == SynSent then SynSeg(s) else SynAckSeg(s)) else Step(s, [])
    else if s.inflight > 0 then
      if now >= s.deadline
          then Retry(s, now, DataSeg(s, Add32(s.dataBase, s.sent - s.inflight), s.out[s.sent - s.inflight..s.sent]))
      else Step(s, [])
    else if s.sent < |s.out| then
      if Chunk(s) == 0 then Step(s, [])
      else
        Step(s.(sent := s.sent + Chunk(s), inflight := Chunk(s), retries := 0, deadline := now + RTO_TICKS),
             [DataSeg(s, Add32(s.dataBase, s.sent), s.out[s.sent..s.sent + Chunk(s)])])
    else if s.finReq && !s.finSent then
      Step(s.(finSent := true, finSeq := s.sndNxt, retries := 0, deadline := now + RTO_TICKS), [FinSeg(s, s.sndNxt)])
    else if s.finSent && !s.finAcked && now >= s.deadline then Retry(s, now, FinSeg(s, s.finSeq))
    else Step(s, [])
  }
}
