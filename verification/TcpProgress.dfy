/** What a socket sends, and when: nothing here speaks of segments that were sent anyway. */
module TcpProgress {
  import opened Bytes
  import opened TcpSpec
  import opened TcpSender
  import opened TcpLink
  import opened TcpOrder

  // ── Writing and reading ────────────────────────────────────────────────────

  /** A write to an open connection with room for it is queued behind the rest; any other changes
      nothing. */
  lemma Queues(h: History, data: seq<byte>)
    requires HistoryOk(h)
    ensures var h' := Do(h, Write(data));
      var room := (h.s.state == Established || h.s.state == CloseWait) && |h.written| - h.off + |data| <= 512;
      && (room ==> h'.written == h.written + data && h'.s.out == h.s.out + data && h'.off == h.off && h'.wire == h.wire)
      && (!room ==> h' == h)
  {
    hide Add32, Carries;
  }

  /** A read hands over the oldest bytes and leaves the others. */
  lemma Reads(s: Sock, n: nat)
    requires Valid(s)
    ensures s.rx[..Min(|s.rx|, n)] + AppRead(s, n).rx == s.rx
    ensures |AppRead(s, n).rx| == if n <= |s.rx| then |s.rx| - n else 0
  {
  }

  // ── Ticks ──────────────────────────────────────────────────────────────────

  /** A live connection whose peer's hardware address is known. */
  predicate Up(s: Sock) {
    (s.state == Established || s.state == CloseWait) && s.macKnown && !s.dead
  }

  /** A segment with these bytes at this number, acknowledging what `s` has received. */
  predicate Plainly(g: Seg, s: Sock, seqNo: u32, payload: seq<byte>) {
    && g.seqNo == seqNo && g.payload == payload && g.ackFlag && g.ack == s.rcvNxt && g.window == 1024
    && !g.syn && !g.rst
  }

  /** The retransmission timer is started again, or the connection given up. */
  predicate Tried(s: Sock, s': Sock, now: nat) {
    if s.retries < 8 then s' == s.(retries := s.retries + 1, deadline := now + 800)
    else s' == s.(retries := s.retries + 1, dead := true)
  }

  /** Bytes under way are sent again at the deadline and not before; the ninth time ends the
      connection. */
  lemma Resends(h: History, now: nat)
    requires HistoryOk(h) && Up(h.s) && h.s.inflight > 0
    ensures var h' := Do(h, Tick(now));
      && h'.written == h.written && h'.off == h.off && h.off + h.s.sent <= |h.written|
      && (now < h.s.deadline ==> h' == h)
      && (now >= h.s.deadline ==> Tried(h.s, h'.s, now))
      && (now >= h.s.deadline && h.s.retries < 8 ==>
            && |h'.wire| == |h.wire| + 1 && h'.wire[..|h.wire|] == h.wire && !h'.wire[|h.wire|].fin
            && Plainly(h'.wire[|h.wire|], h.s, Add32(Isn(h.s), h.off), h.written[h.off..h.off + h.s.sent]))
      && (now >= h.s.deadline && h.s.retries >= 8 ==> h'.wire == h.wire)
  {
    hide Add32, Carries;
    AddNone(Isn(h.s), h.off);
    SliceOfTail(h.written, h.off, 0, h.s.sent);
  }

  /** With nothing under way the next bytes go out: as many as are queued, fit a segment and the
      peer's window, if that is any. */
  lemma SendsNext(h: History, now: nat)
    requires HistoryOk(h) && Up(h.s) && h.s.inflight == 0 && h.off < |h.written|
    ensures var h', n := Do(h, Tick(now)), Min(Min(|h.written| - h.off, 512), h.s.peerWnd);
      && h'.written == h.written && h'.off == h.off
      && (n == 0 ==> h' == h)
      && (n > 0 ==>
            && h'.s == h.s.(sent := n, inflight := n, retries := 0, deadline := now + 800)
            && |h'.wire| == |h.wire| + 1 && h'.wire[..|h.wire|] == h.wire && !h'.wire[|h.wire|].fin
            && Plainly(h'.wire[|h.wire|], h.s, Add32(Isn(h.s), h.off), h.written[h.off..h.off + n]))
  {
    hide Add32, Carries;
    AddNone(Isn(h.s), h.off);
    SliceOfTail(h.written, h.off, 0, Min(Min(|h.written| - h.off, 512), h.s.peerWnd));
  }

  /** When all is acknowledged a requested FIN goes out behind the last byte, and again at each
      deadline until it is acknowledged; without a request nothing does. */
  lemma SendsFin(h: History, now: nat)
    requires HistoryOk(h) && Up(h.s) && h.off == |h.written|
    ensures var h' := Do(h, Tick(now));
      && h'.written == h.written && h'.off == h.off
      && (!h.s.finReq && !h.s.finSent ==> h' == h)
      && (h.s.finReq && !h.s.finSent ==>
            h'.s == h.s.(finSent := true, finSeq := Add32(Isn(h.s), |h.written|), retries := 0, deadline := now + 800))
      && (h.s.finSent && (h.s.finAcked || now < h.s.deadline) ==> h' == h)
      && (h.s.finSent && !h.s.finAcked && now >= h.s.deadline ==> Tried(h.s, h'.s, now))
      && ((h.s.finReq && !h.s.finSent) || (h.s.finSent && !h.s.finAcked && now >= h.s.deadline && h.s.retries < 8) ==>
            && |h'.wire| == |h.wire| + 1 && h'.wire[..|h.wire|] == h.wire && h'.wire[|h.wire|].fin
            && Plainly(h'.wire[|h.wire|], h.s, Add32(Isn(h.s), |h.written|), []))
      && (h.s.finSent && !h.s.finAcked && now >= h.s.deadline && h.s.retries >= 8 ==> h'.wire == h.wire)
  {
    hide Add32, Carries;
    AddNone(Isn(h.s), h.off);
  }

  /** A SYN, or the answer to one, is repeated at each deadline until it is acknowledged. */
  lemma SendsSyn(s: Sock, now: nat)
    requires Valid(s) && s.macKnown && !s.dead && !s.synAcked && (s.state == SynSent || s.state == SynRcvd)
    ensures var r := Poll(s, now);
      && (now < s.deadline ==> r == Step(s, []))
      && (now >= s.deadline ==> Tried(s, r.s, now))
      && (now >= s.deadline && s.retries >= 8 ==> r.segs == [])
      && (now >= s.deadline && s.retries < 8 ==>
            && |r.segs| == 1
            && var g := r.segs[0];
               && g.syn && !g.fin && !g.rst && g.seqNo == s.iss && g.payload == [] && g.window == 1024
               && (if s.state == SynSent then !g.ackFlag else g.ackFlag && g.ack == s.rcvNxt))
  {
    hide Add32;
  }

  /** A dead socket, or one without an address to send to, sends nothing. */
  lemma Silent(s: Sock, now: nat)
    requires Valid(s) && (s.dead || !s.macKnown)
    ensures Poll(s, now) == Step(s, [])
  {
  }

  /** The socket polled at each of these times. */
  ghost function Polled(h: History, times: seq<nat>): History
    decreases |times|
  {
    if times == [] then h
    else
      var prev := Polled(h, times[..|times| - 1]);
      if Valid(prev.s) then Do(prev, Tick(times[|times| - 1])) else prev
  }

  /** Each time is at or after the deadline the one before has set. */
  predicate Spaced(deadline: nat, times: seq<nat>) {
    && (times != [] ==> deadline <= times[0])
    && forall i :: 0 < i < |times| ==> times[i - 1] + 800 <= times[i]
  }

  /** Without an answer the same bytes go out once per deadline, up to the eighth try; the next
      deadline ends the connection. */
  lemma {:induction false} Insists(h: History, times: seq<nat>)
    requires HistoryOk(h) && Up(h.s) && h.s.inflight > 0 && Spaced(h.s.deadline, times)
    requires h.s.retries + |times| <= 9
    ensures var h' := Polled(h, times);
      && HistoryOk(h') && h'.off == h.off && h'.written == h.written && h.off + h.s.sent <= |h.written|
      && h'.s.retries == h.s.retries + |times| && (h'.s.dead <==> h.s.retries + |times| == 9)
      && (!h'.s.dead ==> h'.s == h.s.(retries := h'.s.retries, deadline := h'.s.deadline)
                         && |h'.wire| == |h.wire| + |times|
                         && (times != [] ==> h'.s.deadline == times[|times| - 1] + 800)
                         && (times == [] ==> h' == h))
      && (forall j :: |h.wire| <= j < |h'.wire| ==>
            Plainly(h'.wire[j], h.s, Add32(Isn(h.s), h.off), h.written[h.off..h.off + h.s.sent]))
    decreases |times|
  {
    hide Add32, HistoryOk, Do, Valid;
    Sound(h);
    if times != [] {
      var n := |times| - 1;
      var prev, h' := Polled(h, times[..n]), Polled(h, times);
      Insists(h, times[..n]);
      Sound(prev);
      Resends(prev, times[n]);
      DoKeeps(prev, Tick(times[n]));
      forall j | |h.wire| <= j < |h'.wire|
        ensures Plainly(h'.wire[j], h.s, Add32(Isn(h.s), h.off), h.written[h.off..h.off + h.s.sent])
      {
        if j < |prev.wire| {
          assert h'.wire[j] == prev.wire[j];
        }
      }
    }
  }

  lemma Sound(h: History)
    requires HistoryOk(h)
    ensures Valid(h.s) && (h.s.dead || h.s.retries <= 8) && h.off + h.s.sent <= |h.written|
  {
    hide Add32, Carries;
  }

  // ── Acknowledgements taken ─────────────────────────────────────────────────

  /** An acknowledgement of place `a` under way takes the bytes before `a` from the queue and no
      others; one beyond takes all that is under way. */
  lemma AckTakes(h: History, g: Seg, now: nat, a: nat)
    requires HistoryOk(h) && h.s.state != Listen && Short(h.written) && !h.s.dead && !g.rst && g.ackFlag
    requires h.off <= a <= |h.written| + 1 && g.ack == Add32(Isn(h.s), a)
    ensures var h', b := Do(h, Receive(g, now, 0)), Min(a, h.off + h.s.sent);
      && h'.off == b && b <= |h.written| && h'.s.out == h.written[b..] && h'.s.sent == h.off + h.s.sent - b
      && h'.written == h.written
  {
    hide HistoryOk, Sender, Carries, RxSegment, Add32, Advance, Isn;
    SenderOf(h);
    AckAdvance(h.s, h.written, h.off, a);
    RxKeeps(h.s, g, now, 0, h.written, h.off);
    RxSent(h.s, g, now);
    OutIs(Do(h, Receive(g, now, 0)).s, h.written, h.off + Moves(h.s, g));
    Sound(h);
  }

  lemma OutIs(s: Sock, written: seq<byte>, off: nat)
    requires Sender(s, written, off)
    ensures off <= |written| && s.out == written[off..]
  {
    hide Add32;
  }

  lemma BodySent(s: Sock, g: Seg, synPhase: bool)
    requires Valid(s)
    ensures var r := RxBody(s, g, synPhase).s; r.sent == s.sent && r.peerWnd == s.peerWnd
  {
    hide RxData, RxFin, Valid;
    var d := if g.payload == [] then Step(s, []) else RxData(s, g);
    DataSent(s, g);
    FinSent(d.s, g, synPhase);
  }

  lemma DataSent(s: Sock, g: Seg)
    requires Valid(s)
    ensures var r := RxData(s, g).s; r.sent == s.sent && r.peerWnd == s.peerWnd
  {
    hide Add32;
  }

  lemma FinSent(s: Sock, g: Seg, synPhase: bool)
    ensures var r := RxFin(s, g, synPhase).s; r.sent == s.sent && r.peerWnd == s.peerWnd
  {
    hide Add32, SeqGe;
  }

  lemma AckSent(s: Sock, ack: u32)
    requires Valid(s)
    ensures RxAck(s, ack).sent == s.sent - Advance(s, ack) && RxAck(s, ack).peerWnd == s.peerWnd
    ensures RxAck(s, ack).state == s.state
  {
    hide DropAcked, NoteSyn, NoteFin, Advance, Valid;
    DropSent(s, ack);
    NotesSent(DropAcked(s, ack), ack);
    NotesSent(NoteSyn(DropAcked(s, ack), ack), ack);
  }

  lemma DropSent(s: Sock, ack: u32)
    requires Valid(s)
    ensures var r := DropAcked(s, ack);
        r.sent == s.sent - Advance(s, ack) && r.peerWnd == s.peerWnd && r.state == s.state
  {
    hide Add32, Sub32;
  }

  lemma NotesSent(s: Sock, ack: u32)
    ensures var r := NoteSyn(s, ack); r.sent == s.sent && r.peerWnd == s.peerWnd && r.state == s.state
    ensures var r := NoteFin(s, ack); r.sent == s.sent && r.peerWnd == s.peerWnd && r.state == s.state
  {
    hide SeqGt;
  }

  /** The window the peer offers is the one it last sent. */
  lemma RxSent(s: Sock, g: Seg, now: nat)
    requires Valid(s) && s.state != Listen && !s.dead && !g.rst
    ensures var r := RxSegment(s, g, now, 0).s;
      && r.peerWnd == (if g.ackFlag then g.window else s.peerWnd)
      && r.sent == s.sent - (if g.ackFlag then Advance(s, g.ack) else 0)
  {
    hide Add32, Sub32, Advance, RxBody, RxAck, Valid;
    SameWindow(s, g.window);
    var s0 := s.(peerWnd := g.window);
    SameAdvance(s, s0, g.ack);
    AckSent(s0, g.ack);
    RxAckValid(s0, g.ack);
    StateSent(if g.ackFlag then RxAck(s0, g.ack) else s, g, now);
  }

  lemma SameAdvance(s: Sock, s': Sock, ack: u32)
    requires s'.dataBase == s.dataBase && s'.sent == s.sent
    ensures Advance(s', ack) == Advance(s, ack)
  {
  }

  lemma StateSent(s: Sock, g: Seg, now: nat)
    requires Valid(s) && s.state != Listen
    ensures var r := RxState(s, g, now, 0).s; r.sent == s.sent && r.peerWnd == s.peerWnd
  {
    hide Add32, RxBody, InSynSent, InSynRcvd;
    match s.state {
      case SynSent => SynSentSent(s, g);
      case SynRcvd => SynRcvdSent(s, g, now);
      case _ => BodySent(s, g, false);
    }
  }

  lemma SynSentSent(s: Sock, g: Seg)
    requires Valid(s)
    ensures var r := InSynSent(s, g).s; r.sent == s.sent && r.peerWnd == s.peerWnd
  {
    hide Add32, RxBody;
    var r := RxSynAck(s, g);
    BodySent(if r.s.synAcked then r.s.(state := Established) else r.s, g, true);
  }

  lemma SynRcvdSent(s: Sock, g: Seg, now: nat)
    requires Valid(s)
    ensures var r := InSynRcvd(s, g, now).s; r.sent == s.sent && r.peerWnd == s.peerWnd
  {
    hide Add32, RxBody;
    BodySent(s.(state := Established), g, true);
  }

  // ── Segments received ──────────────────────────────────────────────────────

  /** How far sequence number `a` lies ahead of `b`, going round. */
  function Ahead(a: u32, b: u32): nat {
    if a >= b then a - b else a + 0x1_0000_0000 - b
  }

  lemma SeqIs(a: u32, b: u32)
    ensures SeqGe(a, b) <==> Ahead(a, b) <= 0x8000_0000
    ensures SeqGt(a, b) <==> 0 < Ahead(a, b) <= 0x8000_0000
  {
    var d: int := (b as int) - (a as int);
    if a > b {
      RestIs(d, -1, 0x1_0000_0000 - Ahead(a, b));
    } else {
      RestIs(d, 0, b - a);
    }
  }

  /** The payload continues what was received. */
  predicate Next(b: Sock, g: Seg) {
    g.payload != [] && g.seqNo == b.rcvNxt
  }

  /** The number expected behind the payload. */
  function Behind(b: Sock, g: Seg): u32 {
    if Next(b, g) then Add32(b.rcvNxt, |g.payload|) else b.rcvNxt
  }

  /** A FIN that is not behind what is expected. */
  predicate Ends(b: Sock, g: Seg) {
    g.fin && Ahead(Add32(g.seqNo, |g.payload|), Behind(b, g)) <= 0x8000_0000
  }

  /** What a segment does to the receiving side of a socket; a FIN in a segment of the handshake does not close. */
  predicate Received(b: Sock, g: Seg, r: Sock, synPhase: bool)
    requires |b.rx| <= 512
  {
    && r.rx == b.rx + (if Next(b, g) then g.payload[..Min(|g.payload|, 512 - |b.rx|)] else [])
    && r.rcvNxt == (if Ends(b, g) then Add32(Add32(g.seqNo, |g.payload|), 1) else Behind(b, g))
    && r.rxFin == (b.rxFin || Ends(b, g))
    && r.state == (if Ends(b, g) && b.state == Established && !synPhase then CloseWait else b.state)
  }

  /** The last answer to a payload or FIN acknowledges all that was received. */
  predicate AnsweredLast(g: Seg, r: Step) {
    g.payload != [] || g.fin ==>
      r.segs != [] && var last := r.segs[|r.segs| - 1]; Plainly(last, r.s, r.s.sndNxt, []) && !last.fin
  }

  predicate SameTimer(b: Sock, r: Sock) {
    r.deadline == b.deadline && r.synAcked == b.synAcked && r.sndNxt == b.sndNxt
  }

  /** Every payload and every FIN is answered, in order or not, and the last answer acknowledges all
      that was received; a segment with neither draws an answer only for a SYN. */
  predicate Answered(b: Sock, g: Seg, r: Step) {
    && |r.segs| == (if g.syn then 1 else 0) + (if g.payload != [] then 1 else 0) + (if g.fin then 1 else 0)
    && AnsweredLast(g, r)
    && (g.syn && g.payload == [] && !g.fin ==> Plainly(r.segs[0], b, r.s.sndNxt, []) && !r.segs[0].fin)
  }

  lemma DataAnswers(b: Sock, g: Seg)
    requires Valid(b)
    ensures var r := RxData(b, g);
      && |r.segs| == 1 && Plainly(r.segs[0], r.s, r.s.sndNxt, []) && !r.segs[0].fin
      && (g.payload != [] ==>
            && SameFlags(b, r.s) && SameTimer(b, r.s) && r.s.state == b.state && r.s.rcvNxt == Behind(b, g)
            && r.s.rx == b.rx + (if Next(b, g) then g.payload[..Min(|g.payload|, 512 - |b.rx|)] else []))
  {
    hide Add32;
    assert b.rx + [] == b.rx;
  }

  lemma FinAnswers(b: Sock, g: Seg, synPhase: bool)
    ensures var r := RxFin(b, g, synPhase);
      var ends := Ahead(Add32(g.seqNo, |g.payload|), b.rcvNxt) <= 0x8000_0000;
      && |r.segs| == 1 && Plainly(r.segs[0], r.s, r.s.sndNxt, []) && !r.segs[0].fin
      && r.s.rcvNxt == (if ends then Add32(Add32(g.seqNo, |g.payload|), 1) else b.rcvNxt)
      && r.s.rxFin == (b.rxFin || ends) && r.s.rx == b.rx && SameTimer(b, r.s) && r.s.finAcked == b.finAcked
      && r.s.state == (if ends && b.state == Established && !synPhase then CloseWait else b.state)
      && r.s.dead == (b.dead || (ends && b.finSent && b.finAcked))
  {
    hide Add32, SeqGe;
    SeqIs(Add32(g.seqNo, |g.payload|), b.rcvNxt);
  }

  lemma BodyAnswers(b: Sock, g: Seg, synPhase: bool)
    requires Valid(b)
    ensures var r := RxBody(b, g, synPhase);
      && Received(b, g, r.s, synPhase) && SameTimer(b, r.s) && r.s.finAcked == b.finAcked
      && r.s.dead == (b.dead || (Ends(b, g) && b.finSent && b.finAcked))
      && |r.segs| == (if g.payload != [] then 1 else 0) + (if g.fin then 1 else 0)
      && AnsweredLast(g, r)
  {
    hide RxData, RxFin, Valid, Add32, Ahead, Plainly;
    assert b.rx + [] == b.rx;
    DataAnswers(b, g);
    var d := if g.payload == [] then Step(b, []) else RxData(b, g);
    assert d.s.rcvNxt == Behind(b, g);
    if g.fin {
      FinAnswers(d.s, g, synPhase);
      var f := RxFin(d.s, g, synPhase);
      assert (d.segs + f.segs)[|d.segs|] == f.segs[0];
    }
  }

  /** The FIN is acknowledged by any number beyond it; both ends being done, the socket is. */
  predicate FinDone(b: Sock, g: Seg) {
    b.finAcked || (g.ackFlag && b.finSent && 0 < Ahead(g.ack, b.finSeq) <= 0x8000_0000)
  }

  lemma AckAnswers(b: Sock, ack: u32)
    requires Valid(b)
    ensures var r := RxAck(b, ack);
      && r.finSent == b.finSent && r.finSeq == b.finSeq
      && r.finAcked == (b.finAcked || (b.finSent && 0 < Ahead(ack, b.finSeq) <= 0x8000_0000))
      && r.dead == (b.dead || (r.finAcked && !b.finAcked && b.rxFin))
  {
    hide DropAcked, NoteSyn, SeqGt, Ahead, Valid;
    DropFlags(b, ack);
    SynFlags(DropAcked(b, ack), ack);
    SeqIs(ack, b.finSeq);
  }

  predicate SameFlags(b: Sock, r: Sock) {
    r.finSent == b.finSent && r.finSeq == b.finSeq && r.finAcked == b.finAcked && r.dead == b.dead && r.rxFin == b.rxFin
  }

  lemma DropFlags(b: Sock, ack: u32)
    requires Valid(b)
    ensures SameFlags(b, DropAcked(b, ack))
  {
    hide Add32, Sub32;
  }

  lemma SynFlags(b: Sock, ack: u32)
    ensures SameFlags(b, NoteSyn(b, ack))
  {
  }

  /** An open, live socket and a segment without RST. */
  lemma Answers(b: Sock, g: Seg, now: nat, iss: u32)
    requires Valid(b) && (b.state == Established || b.state == CloseWait) && !b.dead && !g.rst
    ensures var r := RxSegment(b, g, now, iss);
      && |b.rx| <= 512 && Received(b, g, r.s, false) && Answered(b, g, r) && r.s.finAcked == FinDone(b, g)
      && (r.s.dead <==> (FinDone(b, g) && !b.finAcked && b.rxFin) || (Ends(b, g) && b.finSent && FinDone(b, g)))
  {
    hide Add32, RxAck, RxBody, Valid, Ahead;
    SameWindow(b, g.window);
    var b0 := b.(peerWnd := g.window);
    var b1 := if g.ackFlag then RxAck(b0, g.ack) else b;
    AckReceiver(b0, g.ack);
    RxAckValid(b0, g.ack);
    AckAnswers(b0, g.ack);
    BodyAnswers(b1, g, false);
    SameEnds(b, b1, g);
    AckPlainly(b1);
  }

  lemma SameEnds(b: Sock, b': Sock, g: Seg)
    requires b'.rcvNxt == b.rcvNxt
    ensures Next(b', g) == Next(b, g) && Behind(b', g) == Behind(b, g) && Ends(b', g) == Ends(b, g)
  {
  }

  lemma AckPlainly(s: Sock)
    ensures Plainly(AckSeg(s), s, s.sndNxt, []) && !AckSeg(s).fin
  {
  }

  /** A reset ends the connection without an answer. */
  lemma Resets(b: Sock, g: Seg, now: nat, iss: u32)
    requires Valid(b) && !b.dead && g.rst
    ensures RxSegment(b, g, now, iss) == Step(b.(dead := true), [])
  {
  }

  /** Over the channel: data that arrives at a live receiver adds an acknowledgement of the new place
      to what it sends back. */
  lemma DeliverAnswers(d: Duplex, g: Seg, now: nat)
    requires OrderOk(d) && Enabled2(d, Deliver(g, now)) && !d.l.b.dead && (g.payload != [] || g.fin)
    ensures var d' := Happen2(d, Deliver(g, now));
      && |d'.back| > |d.back| && d'.back[..|d.back|] == d.back
      && d'.back[|d'.back| - 1].place == Place(d'.l)
      && d'.back[|d'.back| - 1].g.ackFlag && d'.back[|d'.back| - 1].g.ack == Add32(Isn(d.l.h.s), Place(d'.l))
  {
    hide LinkOk, Add32, Isn, RxSegment, Stored, Overflows, Valid, Received, Happen;
    DeliverKeeps(d, g, now);
    ReceiverOf(d.l);
    NotReset(d.l, g);
    Answers(d.l.b, g, now, 0);
    var r := RxSegment(d.l.b, g, now, 0);
    var d' := Happen2(d, Deliver(g, now));
    assert d'.back == d.back + Replies(r.segs, Place(d'.l));
    SameSenderSide(d.l, g, now);
  }

  lemma SameSenderSide(l: Link, g: Seg, now: nat)
    requires Valid(l.h.s) && Valid(l.b)
    ensures Happen(l, Arrive(g, now)).h == l.h
  {
  }

  lemma NotReset(l: Link, g: Seg)
    requires LinkOk(l) && g in l.h.wire
    ensures !g.rst
  {
    hide Valid, Add32;
  }

  // ── Opening a connection ───────────────────────────────────────────────────

  /** A listener takes a SYN and answers it; anything else ends it. */
  lemma Listens(s: Sock, g: Seg, now: nat, iss: u32)
    requires Valid(s) && s.state == Listen && !s.dead && !s.finSent && !g.rst
    ensures var r := RxSegment(s, g, now, iss);
      if !g.syn then r.s.dead && r.segs == []
      else
        && r.s.state == SynRcvd && r.s.macKnown && r.s.iss == iss && r.s.sndNxt == r.s.dataBase == Add32(iss, 1)
        && r.s.rcvNxt == Add32(g.seqNo, 1) && !r.s.synAcked && r.s.out == [] && r.s.rx == [] && r.s.sent == 0
        && r.s.peerWnd == (if g.ackFlag then g.window else s.peerWnd)
        && r.s.deadline == now + 800 && r.s.retries == 0 && !r.s.dead
        && |r.segs| == 1 && r.segs[0].syn && r.segs[0].ackFlag && r.segs[0].seqNo == iss
        && r.segs[0].ack == r.s.rcvNxt && !r.segs[0].fin && !r.segs[0].rst && r.segs[0].payload == []
  {
    hide Add32, Sub32, RxAck, Valid;
    SameWindow(s, g.window);
    AckOpening(s.(peerWnd := g.window), g.ack);
    RxAckValid(s.(peerWnd := g.window), g.ack);
  }

  /** What an acknowledgement does before the connection is open. */
  lemma AckOpening(s: Sock, ack: u32)
    requires Valid(s) && !s.finSent
    ensures var r, good := RxAck(s, ack), (s.state == SynSent || s.state == SynRcvd) && ack == DropAcked(s, ack).sndNxt;
      && r.state == s.state && r.dead == s.dead && r.peerWnd == s.peerWnd && r.rcvNxt == s.rcvNxt && r.rx == s.rx
      && r.rxFin == s.rxFin && !r.finSent && r.iss == s.iss && r.sndNxt == DropAcked(s, ack).sndNxt
      && r.synAcked == (s.synAcked || good) && r.deadline == (if good && !s.synAcked then 0 else s.deadline)
  {
    hide DropAcked, Valid;
    DropOpening(s, ack);
  }

  lemma DropOpening(s: Sock, ack: u32)
    requires Valid(s)
    ensures var r := DropAcked(s, ack);
      && r.state == s.state && r.dead == s.dead && r.peerWnd == s.peerWnd && r.rcvNxt == s.rcvNxt && r.rx == s.rx
      && r.rxFin == s.rxFin && r.finSent == s.finSent && r.iss == s.iss && r.synAcked == s.synAcked
      && r.deadline == s.deadline
  {
    hide Add32, Sub32;
  }

  lemma NoDrop(s: Sock, ack: u32)
    requires Valid(s) && s.out == []
    ensures DropAcked(s, ack) == s
  {
    hide Add32, Sub32;
  }

  /** A socket that has not sent anything but its SYN. */
  predicate Opening(s: Sock) {
    Valid(s) && !s.dead && s.out == [] && s.dataBase == Add32(s.iss, 1) && !s.finSent
  }

  lemma OpeningAck(s: Sock, g: Seg)
    requires Opening(s) && (s.state == SynSent || s.state == SynRcvd) && g.ackFlag
    ensures var s0 := s.(peerWnd := g.window);
      && Valid(s0)
      && var r, good := RxAck(s0, g.ack), g.ack == Add32(s.iss, 1);
         && Valid(r) && r.state == s.state && !r.dead && r.rcvNxt == s.rcvNxt && r.rx == s.rx && r.rxFin == s.rxFin
         && !r.finSent && r.iss == s.iss && r.sndNxt == s.sndNxt
         && r.synAcked == (s.synAcked || good) && r.deadline == (if good && !s.synAcked then 0 else s.deadline)
  {
    hide Add32, Sub32, RxAck, DropAcked, Valid;
    var s0 := s.(peerWnd := g.window);
    SameWindow(s, g.window);
    ValidNext(s);
    NoDrop(s0, g.ack);
    AckOpening(s0, g.ack);
    RxAckValid(s0, g.ack);
  }

  lemma SynTaken(s: Sock, g: Seg)
    requires Valid(s) && s.state == SynSent
    ensures |s.rx| <= 512
    ensures var r, good := InSynSent(s, g), g.ackFlag && g.ack == Add32(s.iss, 1);
      var s1 := s.(rcvNxt := Add32(g.seqNo, 1), state := if s.synAcked || good then Established else SynSent);
      && r.s.synAcked == (s.synAcked || good) && r.s.deadline == (if good then 0 else s.deadline)
      && Received(s1, g, r.s, true) && AnsweredLast(g, r)
      && |r.segs| == (if good then 1 else 0) + (if g.payload != [] then 1 else 0) + (if g.fin then 1 else 0)
      && (good ==> Plainly(r.segs[0], s1, s.sndNxt, []) && !r.segs[0].fin)
  {
    hide Add32, RxBody, Valid, Ahead, Plainly, Received, InSynSent, RxSynAck, AfterSyn;
    ValidFits(s);
    var a, b := RxSynAck(s, g).segs, AfterSyn(s, g);
    AfterSynIs(s, g);
    BodyAnswers(b, g, true);
    SameReceived(b, s.(rcvNxt := Add32(g.seqNo, 1), state := b.state), g);
    if a != [] {
      SamePlainly(a[0], b, s.(rcvNxt := Add32(g.seqNo, 1), state := b.state), s.sndNxt, []);
    }
  }

  /** The socket after the SYN of a segment, before its payload. */
  function AfterSyn(s: Sock, g: Seg): Sock {
    var r := RxSynAck(s, g).s;
    if r.synAcked then r.(state := Established) else r
  }

  lemma AfterSynIs(s: Sock, g: Seg)
    requires Valid(s) && s.state == SynSent
    ensures var a, b, good := RxSynAck(s, g).segs, AfterSyn(s, g), g.ackFlag && g.ack == Add32(s.iss, 1);
      && Valid(b) && b.rcvNxt == Add32(g.seqNo, 1) && b.rx == s.rx && b.rxFin == s.rxFin && b.sndNxt == s.sndNxt
      && b.synAcked == (s.synAcked || good) && b.deadline == (if good then 0 else s.deadline)
      && b.state == (if s.synAcked || good then Established else SynSent)
      && InSynSent(s, g).s == RxBody(b, g, true).s && InSynSent(s, g).segs == a + RxBody(b, g, true).segs
      && |a| == (if good then 1 else 0) && (good ==> Plainly(a[0], b, s.sndNxt, []) && !a[0].fin)
  {
    hide Add32, RxBody;
  }

  /** A connecting socket is established by a SYN once its own is acknowledged, and acknowledges the SYN that
      does it; without a SYN nothing but that acknowledgement is noted. */
  lemma Connects(s: Sock, g: Seg, now: nat)
    requires Opening(s) && s.state == SynSent && !g.rst
    ensures |s.rx| <= 512
    ensures var r, good := RxSegment(s, g, now, 0), g.ackFlag && g.ack == Add32(s.iss, 1);
      var s1 := s.(rcvNxt := Add32(g.seqNo, 1), state := if s.synAcked || good then Established else SynSent);
      && r.s.synAcked == (s.synAcked || good)
      && r.s.deadline == (if good && (g.syn || !s.synAcked) then 0 else s.deadline)
      && (!g.syn ==> r.segs == [] && r.s.state == SynSent && r.s.rcvNxt == s.rcvNxt && r.s.rx == s.rx)
      && (g.syn ==>
            && Received(s1, g, r.s, true) && AnsweredLast(g, r)
            && |r.segs| == (if good then 1 else 0) + (if g.payload != [] then 1 else 0) + (if g.fin then 1 else 0)
            && (good ==> Plainly(r.segs[0], s1, s.sndNxt, []) && !r.segs[0].fin))
  {
    hide Add32, RxAck, InSynSent, Valid, Plainly, Received, AnsweredLast;
    ValidFits(s);
    if g.ackFlag { OpeningAck(s, g); }
    var s0 := if g.ackFlag then RxAck(s.(peerWnd := g.window), g.ack) else s;
    if g.syn {
      SynTaken(s0, g);
      var state := if s0.synAcked then Established else SynSent;
      var b, b' := s0.(rcvNxt := Add32(g.seqNo, 1), state := state), s.(rcvNxt := Add32(g.seqNo, 1), state := state);
      SameReceived(b, b', g);
      var r := InSynSent(s0, g);
      if r.segs != [] {
        SamePlainly(r.segs[0], b, b', s.sndNxt, []);
      }
    }
  }

  lemma ValidFits(s: Sock)
    requires Valid(s)
    ensures |s.rx| <= 512
  {
  }

  lemma ValidMoved(s: Sock, b: Sock)
    requires Valid(s) && b == s.(rcvNxt := b.rcvNxt, state := b.state, synAcked := b.synAcked, deadline := b.deadline)
    ensures Valid(b)
  {
  }

  lemma SamePlainly(g: Seg, s: Sock, s': Sock, seqNo: u32, payload: seq<byte>)
    requires s'.rcvNxt == s.rcvNxt
    ensures Plainly(g, s', seqNo, payload) == Plainly(g, s, seqNo, payload)
  {
  }

  lemma SameReceived(b: Sock, b': Sock, g: Seg)
    requires b'.rcvNxt == b.rcvNxt && b'.rx == b.rx && b'.rxFin == b.rxFin && b'.state == b.state && |b.rx| <= 512
    ensures forall r, phase :: Received(b, g, r, phase) == Received(b', g, r, phase)
  {
  }

  lemma ValidNext(s: Sock)
    requires Valid(s) && s.out == [] && s.dataBase == Add32(s.iss, 1)
    ensures s.sndNxt == Add32(s.iss, 1) && s.sent == 0
  {
    hide Add32;
    AddNone(s.iss, 1);
  }

  /** A socket that answered a SYN is established by the acknowledgement of its own, and takes the payload that
      comes with it; a repeated SYN is answered again under the same number. */
  lemma Accepts(s: Sock, g: Seg, now: nat)
    requires Opening(s) && s.state == SynRcvd && !g.rst
    ensures |s.rx| <= 512
    ensures var r, good := RxSegment(s, g, now, 0), g.ackFlag && g.ack == Add32(s.iss, 1);
      && r.s.synAcked == (s.synAcked || good)
      && (g.syn ==>
            && r.s.state == SynRcvd && r.s.iss == s.iss && r.s.rcvNxt == Add32(g.seqNo, 1)
            && r.s.deadline == now + 800 && r.s.retries == 0 && r.s.rx == s.rx
            && |r.segs| == 1 && r.segs[0].syn && r.segs[0].ackFlag && r.segs[0].seqNo == s.iss
            && r.segs[0].ack == r.s.rcvNxt && !r.segs[0].fin && !r.segs[0].rst && r.segs[0].payload == [])
      && (!g.syn && !s.synAcked && !good ==>
            r.segs == [] && r.s.state == SynRcvd && r.s.rcvNxt == s.rcvNxt && r.s.rx == s.rx)
      && (!g.syn && (s.synAcked || good) ==>
            && Received(s.(state := Established), g, r.s, true) && AnsweredLast(g, r)
            && |r.segs| == (if g.payload != [] then 1 else 0) + (if g.fin then 1 else 0))
      && (!g.syn ==> r.s.deadline == (if good && !s.synAcked then 0 else s.deadline))
  {
    hide Add32, RxAck, RxBody, Valid, Ahead, Plainly;
    ValidFits(s);
    if g.ackFlag { OpeningAck(s, g); }
    var s0 := if g.ackFlag then RxAck(s.(peerWnd := g.window), g.ack) else s;
    var b := s0.(state := Established);
    ValidMoved(s0, b);
    BodyAnswers(b, g, true);
    SameReceived(b, s.(state := Established), g);
  }

  /** A socket that begins to connect owns number `iss` for its SYN, which it repeats first after 800 ticks. */
  lemma Opens(iss: u32, now: nat, t: nat)
    ensures var s := Connect(iss, now).(macKnown := true);
      && Opening(s) && s.state == SynSent && !s.synAcked && s.sndNxt == Add32(iss, 1)
      && (t < now + 800 ==> Poll(s, t) == Step(s, []))
      && (t >= now + 800 ==> |Poll(s, t).segs| == 1 && Poll(s, t).segs[0].syn && Poll(s, t).segs[0].seqNo == iss)
  {
    AddNone(iss, 1);
    hide Add32;
  }
}
