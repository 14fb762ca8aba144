/** What a socket sends: over any run, against any peer. */
module TcpSender {
  import opened Bytes
  import opened TcpSpec

  // ── Sequence arithmetic ────────────────────────────────────────────────────

  lemma RestIs(x: int, q: int, r: nat)
    requires x == 0x1_0000_0000 * q + r && r < 0x1_0000_0000
    ensures x % 0x1_0000_0000 == r
  {
  }

  lemma Divided(a: nat, m: nat) returns (q: nat)
    ensures a + m == 0x1_0000_0000 * q + Add32(a, m)
  {
    q := (a + m) / 0x1_0000_0000;
  }

  lemma AddAdd(a: nat, m: nat, n: nat)
    ensures Add32(Add32(a, m), n) == Add32(a, m + n)
  {
    hide Add32;
    var q := Divided(a, m);
    var p := Divided(Add32(a, m), n);
    AddIs(a, m + n, q + p, Add32(Add32(a, m), n));
  }

  lemma AddIs(a: nat, n: nat, q: nat, r: nat)
    requires a + n == 0x1_0000_0000 * q + r && r < 0x1_0000_0000
    ensures Add32(a, n) == r
  {
    RestIs(a + n, q, r);
  }

  lemma AddNone(a: nat, m: nat)
    ensures Add32(Add32(a, m), 0) == Add32(a, m)
  {
    AddAdd(a, m, 0);
  }

  lemma AddInjective(a: nat, m: nat, n: nat)
    requires m < 0x1_0000_0000 && n < 0x1_0000_0000 && Add32(a, m) == Add32(a, n)
    ensures m == n
  {
    hide Add32;
    var q := Divided(a, m);
    var p := Divided(a, n);
  }

  /** The distance between two places of a stream of under 2^32 bytes. */
  lemma SubAdd(a: nat, m: nat, n: nat)
    requires m < 0x1_0000_0000 && n < 0x1_0000_0000
    ensures Sub32(Add32(a, n), Add32(a, m)) == if m <= n then n - m else 0x1_0000_0000 - (m - n)
  {
    hide Add32;
    var q: int := Divided(a, m);
    var p: int := Divided(a, n);
    var x: int, y: int := Add32(a, n), Add32(a, m);
    if m <= n {
      RestIs(x - y, q - p, n - m);
    } else {
      RestIs(x - y, q - p - 1, 0x1_0000_0000 - (m - n));
    }
  }

  // ── Invariant ──────────────────────────────────────────────────────────────

  /** The sequence number of the first byte of the stream. */
  function Isn(s: Sock): u32 {
    Add32(s.iss, 1)
  }

  /** `written` are all bytes ever queued and `off` of them have left the queue. */
  ghost predicate Sender(s: Sock, written: seq<byte>, off: nat) {
    && Valid(s) && off <= |written| && s.out == written[off..]
    && (s.state == Listen ==> !s.macKnown && !s.finSent && written == [])
    && (s.state != Listen ==> s.dataBase == Add32(Isn(s), off))
    && (s.finSent ==> s.finReq && s.out == [] && s.finSeq == Add32(Isn(s), |written|))
    && (written != [] ==> Open(s))
  }

  /** The segment carries the bytes of `written` that its sequence number names; a FIN
      comes after the last of them. */
  ghost predicate Carries(g: Seg, isn: u32, written: seq<byte>, closed: bool) {
    && (g.payload != [] ==> exists o :: PayloadAt(g, isn, written, o))
    && (g.fin ==> closed && g.payload == [] && g.seqNo == Add32(isn, |written|))
    && !g.rst && (g.payload != [] || g.fin ==> !g.syn)
  }

  predicate PayloadAt(g: Seg, isn: u32, written: seq<byte>, o: nat) {
    o + |g.payload| <= |written| && g.seqNo == Add32(isn, o) && g.payload == written[o..o + |g.payload|]
  }

  predicate Plain(g: Seg) {
    g.payload == [] && !g.fin && !g.rst
  }

  // ── Calls of the application ───────────────────────────────────────────────

  /** The write comes before the FIN, or queues nothing. */
  predicate InTime(s: Sock, data: seq<byte>) {
    !s.finSent || data == [] || !CanWrite(s, data)
  }

  /** Queued bytes continue the stream exactly when the FIN was not sent yet: the call tests
      neither flag. */
  lemma WriteKeeps(s: Sock, written: seq<byte>, off: nat, data: seq<byte>)
    requires Sender(s, written, off)
    ensures Sender(AppWrite(s, data), if CanWrite(s, data) then written + data else written, off) <==> InTime(s, data)
  {
    hide Add32;
    AddAdd(Isn(s), off, |s.out| + |data|);
    if CanWrite(s, data) && (!s.finSent || data == []) {
      assert (written + data)[off..] == s.out + data;
      assert data == [] ==> written + data == written;
    }
  }

  /** A byte written after the FIN is sent under the FIN's own number. */
  lemma LateWrite(now: nat)
    ensures var s := Connect(0, 0).(state := Established, macKnown := true, synAcked := true, finReq := true,
                finSent := true, finSeq := 1);
      && Sender(s, [], 0)
      && Poll(AppWrite(s, [7]), now).segs == [DataSeg(s, s.finSeq, [7])]
  {
    assert [] + [7] == [7] && [7][0..1] == [7];
  }

  /** The sender's fields are those of `s`; the connection is the same. */
  predicate SameSender(s: Sock, s': Sock) {
    && s'.iss == s.iss && s'.dataBase == s.dataBase && s'.sndNxt == s.sndNxt && s'.sent == s.sent
       && s'.inflight == s.inflight
    && s'.out == s.out && s'.finReq == s.finReq && s'.finSent == s.finSent && s'.finSeq == s.finSeq
    && s'.macKnown == s.macKnown
    && (s'.dead || s'.retries <= MAX_RETRIES) && |s'.rx| <= RX_BUF && (s'.state == Listen <==> s.state == Listen)
       && (Open(s) ==> Open(s'))
  }

  lemma SameSenderKeeps(s: Sock, s': Sock, written: seq<byte>, off: nat)
    requires Sender(s, written, off) && SameSender(s, s')
    ensures Sender(s', written, off)
  {
  }

  // ── Polling ────────────────────────────────────────────────────────────────

  lemma RetrySame(s: Sock, now: nat, g: Seg)
    requires |s.rx| <= RX_BUF
    ensures SameSender(s, Retry(s, now, g).s)
  {
    hide Valid, Open;
    RetryOpen(s, now, g);
    if s.retries + 1 > MAX_RETRIES {
      assert SameSender(s, s.(retries := s.retries + 1, dead := true));
    } else {
      assert SameSender(s, s.(retries := s.retries + 1, deadline := now + RTO_TICKS));
    }
  }

  lemma RetryOpen(s: Sock, now: nat, g: Seg)
    ensures Open(Retry(s, now, g).s) == Open(s)
  {
  }

  lemma RetryKeeps(s: Sock, written: seq<byte>, off: nat, now: nat, g: Seg)
    requires Sender(s, written, off) && !s.dead && Carries(g, Isn(s), written, s.finSent)
    ensures var r := Retry(s, now, g);
      && Sender(r.s, written, off) && SameSender(s, r.s)
      && forall h :: h in r.segs ==> Carries(h, Isn(s), written, s.finSent)
  {
    RetrySame(s, now, g);
    hide Sender, Carries;
    SameSenderKeeps(s, Retry(s, now, g).s, written, off);
  }

  lemma SliceOfTail(w: seq<byte>, off: nat, from: nat, n: nat)
    requires off + from + n <= |w|
    ensures w[off..][from..from + n] == w[off + from..off + from + n]
  {
  }

  lemma DataCarries(s: Sock, written: seq<byte>, off: nat, from: nat, n: nat)
    requires Sender(s, written, off) && s.state != Listen && from + n <= |s.out|
    ensures Carries(DataSeg(s, Add32(s.dataBase, from), s.out[from..from + n]), Isn(s), written, s.finSent)
  {
    AddAdd(Isn(s), off, from);
    hide Add32;
    var g := DataSeg(s, Add32(s.dataBase, from), s.out[from..from + n]);
    SliceOfTail(written, off, from, n);
    assert PayloadAt(g, Isn(s), written, off + from);
  }

  /** A FIN is first sent when nothing is queued, and after the last byte. */
  lemma FinCarries(s: Sock, written: seq<byte>, off: nat)
    requires Sender(s, written, off) && s.state != Listen && s.out == []
    ensures off == |written| && s.sndNxt == Add32(Isn(s), |written|)
  {
    hide Add32;
    AddNone(Isn(s), off);
  }

  lemma FreshKeeps(s: Sock, written: seq<byte>, off: nat, now: nat)
    requires Sender(s, written, off) && s.inflight == 0 && s.sent < |s.out|
    ensures Sender(s.(sent := s.sent + Chunk(s), inflight := Chunk(s), retries := 0, deadline := now + RTO_TICKS),
        written, off)
  {
    hide Add32;
  }

  lemma CloseKeeps(s: Sock, written: seq<byte>, off: nat, now: nat)
    requires Sender(s, written, off) && s.state != Listen && s.out == [] && s.finReq
    ensures Sender(s.(finSent := true, finSeq := s.sndNxt, retries := 0, deadline := now + RTO_TICKS), written, off)
    ensures Carries(FinSeg(s, s.sndNxt), Isn(s), written, true)
  {
    hide Add32;
    FinCarries(s, written, off);
  }

  lemma SenderFacts(s: Sock, written: seq<byte>, off: nat)
    requires Sender(s, written, off)
    ensures Valid(s) && (s.macKnown ==> s.state != Listen)
  {
    hide Add32;
  }

  lemma SynCarries(s: Sock, written: seq<byte>)
    requires |s.rx| <= RX_BUF
    ensures Carries(SynSeg(s), Isn(s), written, s.finSent) && Carries(SynAckSeg(s), Isn(s), written, s.finSent)
  {
    hide Add32;
  }

  lemma FinStillCarries(s: Sock, written: seq<byte>, off: nat)
    requires Sender(s, written, off) && s.finSent
    ensures Carries(FinSeg(s, s.finSeq), Isn(s), written, true)
  {
    hide Add32;
  }

  lemma PollKeeps(s: Sock, written: seq<byte>, off: nat, now: nat)
    requires Sender(s, written, off)
    ensures var r := Poll(s, now);
      && Sender(r.s, written, off) && Isn(r.s) == Isn(s) && r.s.finReq == s.finReq
      && (forall g :: g in r.segs ==> Carries(g, Isn(s), written, r.s.finSent))
      && (s.finSent ==> r.s.finSent) && (r.s.finSent && !s.finSent ==> s.out == [])
  {
    hide Add32, Sender, Carries, Retry;
    SenderFacts(s, written, off);
    if s.dead || !s.macKnown {
    } else if !s.synAcked && (s.state == SynSent || s.state == SynRcvd) {
      var g := if s.state == SynSent then SynSeg(s) else SynAckSeg(s);
      SynCarries(s, written);
      RetryKeeps(s, written, off, now, g);
    } else if s.inflight > 0 {
      DataCarries(s, written, off, 0, s.sent);
      RetryKeeps(s, written, off, now, DataSeg(s, Add32(s.dataBase, 0), s.out[0..s.sent]));
    } else if s.sent < |s.out| {
      DataCarries(s, written, off, s.sent, Chunk(s));
      FreshKeeps(s, written, off, now);
    } else if s.finSent {
      FinStillCarries(s, written, off);
      RetryKeeps(s, written, off, now, FinSeg(s, s.finSeq));
    } else if s.finReq {
      CloseKeeps(s, written, off, now);
    }
  }

  // ── Receiving ──────────────────────────────────────────────────────────────

  lemma SameSenderThen(s0: Sock, s1: Sock, s2: Sock)
    requires SameSender(s0, s1) && SameSender(s1, s2)
    ensures SameSender(s0, s2)
  {
  }

  lemma TailOfTail(w: seq<byte>, off: nat, adv: nat)
    requires off + adv <= |w|
    ensures w[off..][adv..] == w[off + adv..]
  {
  }

  lemma ConsumeKeeps(s: Sock, written: seq<byte>, off: nat, adv: nat)
    requires Sender(s, written, off) && adv <= s.sent <= |s.out| && Valid(Consume(s, adv)) && adv > 0
    ensures Sender(Consume(s, adv), written, off + adv)
  {
    hide Add32, Valid;
    AddAdd(Isn(s), off, adv);
    TailOfTail(written, off, adv);
  }

  lemma DropKeeps(s: Sock, written: seq<byte>, off: nat, ack: u32)
    requires Sender(s, written, off)
    ensures Sender(DropAcked(s, ack), written, off + Advance(s, ack))
  {
    hide Add32, Sub32, Sender, Consume;
    SenderFacts(s, written, off);
    DropValid(s, ack);
    if Advance(s, ack) > 0 {
      ConsumeKeeps(s, written, off, Advance(s, ack));
    }
  }

  lemma NotesSame(s: Sock, ack: u32)
    requires Valid(s)
    ensures SameSender(s, NoteSyn(s, ack)) && SameSender(s, NoteFin(s, ack))
  {
  }

  lemma DropShape(s: Sock, ack: u32)
    requires Valid(s)
    ensures var r := DropAcked(s, ack);
        r.finReq == s.finReq && r.finSent == s.finSent && r.iss == s.iss && r.state == s.state
  {
    hide Add32, Sub32;
  }

  lemma NotesShape(s: Sock, ack: u32)
    ensures NoteSyn(s, ack).state == s.state && NoteFin(s, ack).state == s.state
  {
    hide SeqGt;
  }

  /** An acknowledgement moves bytes out of the queue, whatever its number. */
  lemma AckKeeps(s: Sock, written: seq<byte>, off: nat, ack: u32)
    requires Sender(s, written, off)
    ensures Sender(RxAck(s, ack), written, off + Advance(s, ack))
    ensures RxAck(s, ack).finReq == s.finReq && RxAck(s, ack).finSent == s.finSent && RxAck(s, ack).iss == s.iss
    ensures RxAck(s, ack).state == s.state
  {
    assert Valid(s);
    hide Sender, DropAcked, NoteSyn, NoteFin, Valid;
    var s1 := DropAcked(s, ack);
    var s2 := NoteSyn(s1, ack);
    DropKeeps(s, written, off, ack);
    DropValid(s, ack);
    DropShape(s, ack);
    NotesSame(s1, ack);
    NotesKeep(s1, ack);
    NotesSame(s2, ack);
    NotesShape(s1, ack);
    NotesShape(s2, ack);
    SameSenderThen(s1, s2, NoteFin(s2, ack));
    SameSenderKeeps(s1, NoteFin(s2, ack), written, off + Advance(s, ack));
  }

  lemma DataKeeps(s: Sock, g: Seg)
    requires Valid(s)
    ensures var r := RxData(s, g); SameSender(s, r.s) && Valid(r.s) && forall h :: h in r.segs ==> Plain(h)
  {
    hide Add32;
  }

  lemma FinKeeps(s: Sock, g: Seg, synPhase: bool)
    requires Valid(s)
    ensures var r := RxFin(s, g, synPhase); SameSender(s, r.s) && forall h :: h in r.segs ==> Plain(h)
  {
  }

  lemma BodyKeeps(s: Sock, g: Seg, synPhase: bool)
    requires Valid(s)
    ensures var r := RxBody(s, g, synPhase); SameSender(s, r.s) && forall h :: h in r.segs ==> Plain(h)
  {
    var d := if g.payload == [] then Step(s, []) else RxData(s, g);
    DataKeeps(s, g);
    assert SameSender(s, s);
    hide Add32, RxData, RxFin, Valid, SameSender;
    if g.fin {
      FinKeeps(d.s, g, synPhase);
      SameSenderThen(s, d.s, RxFin(d.s, g, synPhase).s);
    }
  }

  lemma SynKeeps(s: Sock, g: Seg, now: nat, iss: u32)
    requires Valid(s)
    ensures var r := RxSyn(s, g, now, iss); Sender(r.s, [], 0) && forall h :: h in r.segs ==> Plain(h)
  {
  }

  lemma SynSentKeeps(s: Sock, g: Seg)
    requires Valid(s) && s.state == SynSent
    ensures var r := RxState(s, g, 0, 0); SameSender(s, r.s) && forall h :: h in r.segs ==> Plain(h)
  {
    hide Add32, RxBody;
    if g.syn {
      var a := RxSynAck(s, g);
      var s1 := if a.s.synAcked then a.s.(state := Established) else a.s;
      assert SameSender(s, s1) && Valid(s1);
      BodyKeeps(s1, g, true);
      hide SameSender, Valid;
      SameSenderThen(s, s1, RxBody(s1, g, true).s);
    }
  }

  lemma SynRcvdKeeps(s: Sock, g: Seg, now: nat)
    requires Valid(s) && s.state == SynRcvd
    ensures var r := RxState(s, g, now, 0); SameSender(s, r.s) && forall h :: h in r.segs ==> Plain(h)
  {
    hide Add32, RxBody;
    if !g.syn && s.synAcked {
      var s1 := s.(state := Established);
      assert SameSender(s, s1) && Valid(s1);
      BodyKeeps(s1, g, true);
      hide SameSender, Valid;
      SameSenderThen(s, s1, RxBody(s1, g, true).s);
    }
  }

  lemma StateKeeps(s: Sock, g: Seg, now: nat, iss: u32, written: seq<byte>, off: nat)
    requires Sender(s, written, off)
    ensures var r := RxState(s, g, now, iss);
      && Sender(r.s, written, off) && (forall h :: h in r.segs ==> Plain(h))
      && (s.state != Listen ==> r.s.state != Listen && Isn(r.s) == Isn(s) && r.s.finReq == s.finReq)
      && (s.finSent <==> r.s.finSent)
  {
    var r := RxState(s, g, now, iss);
    assert Valid(s) && (s.state == Listen ==> written == [] && off == 0 && !s.finSent);
    assert s.state == Listen && !g.syn ==> SameSender(s, r.s);
    hide Add32, RxBody, Valid, Sender;
    match s.state {
      case Listen =>
        SynKeeps(s, g, now, iss);
        if !g.syn { SameSenderKeeps(s, r.s, written, off); }
      case SynSent =>
        SynSentKeeps(s, g);
        SameSenderKeeps(s, r.s, written, off);
      case SynRcvd =>
        SynRcvdKeeps(s, g, now);
        SameSenderKeeps(s, r.s, written, off);
      case _ =>
        BodyKeeps(s, g, false);
        SameSenderKeeps(s, r.s, written, off);
    }
  }

  /** How far segment `g` moves the queue. */
  function Moves(s: Sock, g: Seg): nat {
    if !s.dead && !g.rst && g.ackFlag then Advance(s, g.ack) else 0
  }

  /** No inbound segment, whatever it claims, upsets what the socket sends. */
  lemma RxKeeps(s: Sock, g: Seg, now: nat, iss: u32, written: seq<byte>, off: nat)
    requires Sender(s, written, off)
    ensures var r := RxSegment(s, g, now, iss);
      && Sender(r.s, written, off + Moves(s, g)) && (forall h :: h in r.segs ==> Plain(h))
      && (s.state != Listen ==> r.s.state != Listen && Isn(r.s) == Isn(s) && r.s.finReq == s.finReq)
      && (s.finSent <==> r.s.finSent)
  {
    hide Add32, RxState, RxAck;
    if !s.dead && !g.rst {
      if g.ackFlag {
        var s1 := s.(peerWnd := g.window);
        SameSenderKeeps(s, s1, written, off);
        AckKeeps(s1, written, off, g.ack);
        StateKeeps(RxAck(s1, g.ack), g, now, iss, written, off + Advance(s1, g.ack));
      } else {
        StateKeeps(s, g, now, iss, written, off);
      }
    } else {
      SameSenderKeeps(s, s.(dead := true), written, off);
    }
  }

  // ── Runs of one socket ─────────────────────────────────────────────────────

  datatype Call = Write(data: seq<byte>) | Close | Read(n: nat) | Learn | Tick(now: nat) | Receive(g: Seg, now: nat,
      iss: u32)

  /** A socket, all bytes it was given, how many left the queue, and all it sent. */
  datatype History = History(s: Sock, written: seq<byte>, off: nat, wire: seq<Seg>)

  /** No bytes are queued after the FIN; the peer's hardware address is set on a connecting socket. */
  predicate Allowed(h: History, c: Call) {
    match c
    case Write(data) => InTime(h.s, data)
    case Learn => h.s.state != Listen
    case _ => true
  }

  ghost function Do(h: History, c: Call): History
    requires Valid(h.s)
  {
    match c
    case Write(data) =>
      h.(s := AppWrite(h.s, data), written := if CanWrite(h.s, data) then h.written + data else h.written)
    case Close => h.(s := h.s.(finReq := true))
    case Read(n) => h.(s := AppRead(h.s, n))
    case Learn => h.(s := h.s.(macKnown := true))
    case Tick(now) => h.(s := Poll(h.s, now).s, wire := h.wire + Poll(h.s, now).segs)
    case Receive(g, now, iss) =>
      var r := RxSegment(h.s, g, now, iss);
      h.(s := r.s, off := h.off + Moves(h.s, g), wire := h.wire + r.segs)
  }

  ghost predicate HistoryOk(h: History) {
    && Sender(h.s, h.written, h.off)
    && (forall g :: g in h.wire ==> Carries(g, Isn(h.s), h.written, h.s.finSent))
    && (h.s.state == Listen ==> forall g :: g in h.wire ==> Plain(g))
  }

  lemma CarriesStill(g: Seg, isn: u32, written: seq<byte>, data: seq<byte>, closed: bool)
    requires Carries(g, isn, written, closed) && (closed ==> data == [])
    ensures Carries(g, isn, written + data, closed)
  {
    hide Add32;
    if g.payload != [] {
      var o :| PayloadAt(g, isn, written, o);
      assert PayloadAt(g, isn, written + data, o);
    }
    assert data == [] ==> written + data == written;
  }

  lemma DoKeeps(h: History, c: Call)
    requires HistoryOk(h) && Allowed(h, c)
    ensures HistoryOk(Do(h, c))
  {
    hide Do, HistoryOk, Valid, InTime;
    match c {
      case Write(data) => WriteHistory(h, data);
      case Tick(now) => TickHistory(h, now);
      case Receive(g, now, iss) => ReceiveHistory(h, g, now, iss);
      case _ => QuietHistory(h, c);
    }
  }

  lemma WriteHistory(h: History, data: seq<byte>)
    requires HistoryOk(h) && InTime(h.s, data)
    ensures Valid(h.s) && HistoryOk(Do(h, Write(data)))
  {
    hide Add32, Sender, Carries, InTime;
    SenderFacts(h.s, h.written, h.off);
    WriteKeeps(h.s, h.written, h.off, data);
    if CanWrite(h.s, data) {
      InTimeMeans(h.s, data);
      forall g | g in h.wire ensures Carries(g, Isn(h.s), h.written + data, h.s.finSent) {
        CarriesStill(g, Isn(h.s), h.written, data, h.s.finSent);
      }
    }
  }

  lemma InTimeMeans(s: Sock, data: seq<byte>)
    requires InTime(s, data) && CanWrite(s, data)
    ensures (s.finSent ==> data == []) && s.state != Listen
  {
  }

  lemma QuietHistory(h: History, c: Call)
    requires HistoryOk(h) && Allowed(h, c) && (c.Close? || c.Read? || c.Learn?)
    ensures Valid(h.s) && HistoryOk(Do(h, c))
  {
    hide Add32, Carries;
    if c.Read? {
      hide Sender;
      SenderFacts(h.s, h.written, h.off);
      SameSenderKeeps(h.s, AppRead(h.s, c.n), h.written, h.off);
    }
  }

  lemma TickHistory(h: History, now: nat)
    requires HistoryOk(h)
    ensures Valid(h.s) && HistoryOk(Do(h, Tick(now)))
  {
    hide Add32, Poll, Sender, PayloadAt;
    SenderFacts(h.s, h.written, h.off);
    PollKeeps(h.s, h.written, h.off, now);
    PollListen(h.s, now);
  }

  lemma ReceiveHistory(h: History, g: Seg, now: nat, iss: u32)
    requires HistoryOk(h)
    ensures Valid(h.s) && HistoryOk(Do(h, Receive(g, now, iss)))
  {
    hide Add32, RxSegment, Sender, PayloadAt, Moves;
    SenderFacts(h.s, h.written, h.off);
    RxKeeps(h.s, g, now, iss, h.written, h.off);
  }

  lemma PollListen(s: Sock, now: nat)
    requires Valid(s)
    ensures Poll(s, now).s.state == s.state && (!s.macKnown ==> Poll(s, now).segs == [])
  {
    hide Add32, Chunk;
    if s.dead || !s.macKnown {
    } else if !s.synAcked && (s.state == SynSent || s.state == SynRcvd) {
    } else if s.inflight > 0 {
    } else if s.sent < |s.out| {
    } else {
    }
  }

  ghost predicate Legal(h: History, calls: seq<Call>)
    decreases |calls|
  {
    calls == [] || (Legal(h, calls[..|calls| - 1]) && Allowed(After(h, calls[..|calls| - 1]), calls[|calls| - 1]))
  }

  ghost function After(h: History, calls: seq<Call>): History
    decreases |calls|
  {
    if calls == [] then h
    else
      var prev := After(h, calls[..|calls| - 1]);
      if Valid(prev.s) then Do(prev, calls[|calls| - 1]) else prev
  }

  /** Over every run of a fresh socket, against any peer: one segment at most is
      outstanding, it is the head of the queue, and all that was ever sent carries the
      written bytes at their places in the stream. */
  lemma {:induction false} SenderRun(s: Sock, calls: seq<Call>)
    requires s == Blank() || exists iss: u32, now: nat :: s == Connect(iss, now)
    requires Legal(History(s, [], 0, []), calls)
    ensures HistoryOk(After(History(s, [], 0, []), calls))
    decreases |calls|
  {
    var h := History(s, [], 0, []);
    if calls == [] {
      if s != Blank() {
        var iss: u32, now: nat :| s == Connect(iss, now);
        AddAdd(iss, 1, 0);
      }
    } else {
      SenderRun(s, calls[..|calls| - 1]);
      DoKeeps(After(h, calls[..|calls| - 1]), calls[|calls| - 1]);
    }
  }
}
