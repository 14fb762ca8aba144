/** A stream from one socket to another over a channel that loses, repeats and reorders. */
module TcpLink {
  import opened Bytes
  import opened TcpSpec
  import opened TcpSender

  // ── The receiving side ─────────────────────────────────────────────────────

  /** The segment is taken for the next part of the stream. */
  predicate Fits(b: Sock, g: Seg) {
    !b.dead && !g.rst && Open(b) && g.payload != [] && g.seqNo == b.rcvNxt
  }

  function Stored(b: Sock, g: Seg): seq<byte>
    requires |b.rx| <= RX_BUF
  {
    if Fits(b, g) then g.payload[..Min(|g.payload|, Room(b))] else []
  }

  predicate Overflows(b: Sock, g: Seg)
    requires |b.rx| <= RX_BUF
  {
    Fits(b, g) && |g.payload| > Room(b)
  }

  /** The number acknowledged grows by the bytes stored exactly when the payload fits. */
  lemma AcksWhatItStores(b: Sock, g: Seg)
    requires Valid(b) && Fits(b, g) && |g.payload| < 0x1_0000_0000
    ensures RxData(b, g).s.rcvNxt == Add32(b.rcvNxt, |Stored(b, g)|) <==> !Overflows(b, g)
  {
  }

  /** A byte that finds the buffer full is acknowledged and lost. */
  lemma FullBuffer(g: Seg)
    requires g == Seg(1, 0, false, true, false, false, WINDOW, [7])
    ensures var b := Blank().(state := Established, macKnown := true, synAcked := true, rcvNxt := 1,
        rx := seq(RX_BUF, _ => 0));
      && Valid(b) && Fits(b, g) && Overflows(b, g)
      && RxData(b, g).s.rcvNxt == 2 && RxData(b, g).s.rx == b.rx
  {
  }

  predicate SameReceiver(b: Sock, b': Sock) {
    b'.rx == b.rx && b'.rcvNxt == b.rcvNxt && b'.rxFin == b.rxFin && Open(b') == Open(b)
  }

  lemma DropReceiver(b: Sock, ack: u32)
    requires Valid(b)
    ensures SameReceiver(b, DropAcked(b, ack)) && DropAcked(b, ack).state == b.state
  {
  }

  lemma NoteReceiver(b: Sock, ack: u32)
    ensures SameReceiver(b, NoteSyn(b, ack)) && NoteSyn(b, ack).state == b.state
    ensures SameReceiver(b, NoteFin(b, ack)) && NoteFin(b, ack).state == b.state
  {
  }

  lemma AckReceiver(b: Sock, ack: u32)
    requires Valid(b)
    ensures SameReceiver(b, RxAck(b, ack)) && RxAck(b, ack).state == b.state
  {
    DropReceiver(b, ack);
    NoteReceiver(DropAcked(b, ack), ack);
    NoteReceiver(NoteSyn(DropAcked(b, ack), ack), ack);
    hide DropAcked, NoteSyn, NoteFin, Open;
  }

  /** A segment of the sender at the receiver: payload, FIN or neither. */
  lemma BodyReceiver(b: Sock, g: Seg)
    requires Valid(b) && Open(b) && (g.fin ==> g.payload == [])
    ensures var r := RxBody(b, g, false);
      && Open(r.s)
      && r.s.rx == (if g.payload != [] && g.seqNo == b.rcvNxt then b.rx + g.payload[..Min(|g.payload|, Room(b))]
         else b.rx)
      && r.s.rcvNxt == (if g.payload != [] then (if g.seqNo == b.rcvNxt then Add32(b.rcvNxt, |g.payload|) else b.rcvNxt)
                        else if g.fin && SeqGe(Add32(g.seqNo, 0), b.rcvNxt) then Add32(Add32(g.seqNo, 0), 1)
                            else b.rcvNxt)
      && r.s.rxFin == (b.rxFin || (g.fin && SeqGe(Add32(g.seqNo, 0), b.rcvNxt)))
      && (forall h :: h in r.segs ==> h.ackFlag && !h.rst && h.ack == r.s.rcvNxt)
  {
  }

  lemma SegmentReceiver(b: Sock, g: Seg, now: nat, iss: u32)
    requires Valid(b) && Open(b) && !b.dead && !g.rst && (g.fin ==> g.payload == [])
        && (g.payload != [] || g.fin ==> !g.syn)
    ensures var r := RxSegment(b, g, now, iss);
      && Open(r.s)
      && r.s.rx == b.rx + Stored(b, g)
      && r.s.rcvNxt == (if g.payload != [] then (if g.seqNo == b.rcvNxt then Add32(b.rcvNxt, |g.payload|) else b.rcvNxt)
                        else if g.fin && SeqGe(g.seqNo, b.rcvNxt) then Add32(g.seqNo, 1) else b.rcvNxt)
      && r.s.rxFin == (b.rxFin || (g.fin && SeqGe(g.seqNo, b.rcvNxt)))
      && (forall h :: h in r.segs ==> h.ackFlag && !h.rst && h.ack == r.s.rcvNxt)
  {
    hide Add32, SeqGe, RxAck, RxBody, Valid;
    SameWindow(b, g.window);
    var b0 := b.(peerWnd := g.window);
    var b1 := if g.ackFlag then RxAck(b0, g.ack) else b;
    AddNothing(g.seqNo);
    AckReceiver(b0, g.ack);
    RxAckValid(b0, g.ack);
    BodyReceiver(b1, g);
  }

  lemma AddNothing(a: u32)
    ensures Add32(a, 0) == a
  {
  }

  lemma SameWindow(b: Sock, w: nat)
    requires Valid(b) && w < 0x1_0000
    ensures Valid(b.(peerWnd := w)) && |b.rx| <= RX_BUF
  {
    hide Add32;
  }

  // ── A stream under any channel ─────────────────────────────────────────────

  /** The sender, the receiving socket, the bytes it stored, those its application has
      read, and whether a payload ever overflowed its buffer. */
  datatype Link = Link(h: History, b: Sock, got: seq<byte>, taken: seq<byte>, full: bool)

  /** `AtSender` lets any segment whatever reach the sender; `Arrive` is a segment sent at
      some time, or one with neither payload nor FIN; `Other` is what the receiving socket
      does as a sender. */
  datatype Event = AtSender(c: Call) | Arrive(g: Seg, now: nat) | Take(n: nat) | Other(b: Sock)

  /** Sequence numbers must not repeat: the stream and its FIN stay under 2^32. */
  predicate Short(written: seq<byte>) {
    |written| < 0xFFFF_FFFF
  }

  predicate Enabled(l: Link, e: Event) {
    match e
    case AtSender(c) => Allowed(l.h, c) && (c.Write? ==> Short(l.h.written + c.data))
    case Arrive(g, _) => g in l.h.wire || Plain(g)
    case Take(_) => true
    case Other(b) => Valid(b) && SameReceiver(l.b, b)
  }

  ghost function Happen(l: Link, e: Event): Link
    requires Valid(l.h.s) && Valid(l.b)
  {
    match e
    case AtSender(c) => l.(h := Do(l.h, c))
    case Arrive(g, now) =>
      l.(b := RxSegment(l.b, g, now, 0).s, got := l.got + Stored(l.b, g), full := l.full || Overflows(l.b, g))
    case Take(n) => l.(b := AppRead(l.b, n), taken := l.taken + l.b.rx[..Min(|l.b.rx|, n)])
    case Other(b) => l.(b := b)
  }

  /** What was stored is the start of what was written, and the next expected number
      follows it, or a FIN that came after the end. */
  ghost predicate InPlace(b: Sock, isn: u32, written: seq<byte>, got: seq<byte>, closed: bool) {
    && got <= written
    && if b.rxFin then closed && b.rcvNxt == Add32(isn, |written| + 1) else b.rcvNxt == Add32(isn, |got|)
  }

  ghost predicate LinkOk(l: Link) {
    && HistoryOk(l.h) && l.h.s.state != Listen && Short(l.h.written)
    && Valid(l.b) && Open(l.b) && l.taken + l.b.rx == l.got
    && (!l.full ==> InPlace(l.b, Isn(l.h.s), l.h.written, l.got, l.h.s.finSent))
  }

  /** A payload taken for the next part of the stream is the next part of the stream. */
  lemma NextPart(b: Sock, isn: u32, written: seq<byte>, got: seq<byte>, closed: bool, g: Seg)
    requires InPlace(b, isn, written, got, closed) && Short(written) && Carries(g, isn, written, closed) && Fits(b, g)
    ensures !b.rxFin && got + g.payload <= written && Add32(b.rcvNxt, |g.payload|) == Add32(isn, |got| + |g.payload|)
  {
    hide Add32;
    var o: nat :| PayloadAt(g, isn, written, o);
    AddInjective(isn, o, if b.rxFin then |written| + 1 else |got|);
    AddAdd(isn, |got|, |g.payload|);
    assert written[..o + |g.payload|] == written[..o] + g.payload;
  }

  lemma PlaceKeeps(b: Sock, b': Sock, isn: u32, written: seq<byte>, got: seq<byte>, closed: bool, g: Seg)
    requires Valid(b) && Open(b) && !b.dead && InPlace(b, isn, written, got, closed) && Short(written)
    requires Carries(g, isn, written, closed) && !Overflows(b, g)
    requires b'.rcvNxt == (if g.payload != []
        then (if g.seqNo == b.rcvNxt then Add32(b.rcvNxt, |g.payload|) else b.rcvNxt)
                           else if g.fin && SeqGe(g.seqNo, b.rcvNxt) then Add32(g.seqNo, 1) else b.rcvNxt)
    requires b'.rxFin == (b.rxFin || (g.fin && SeqGe(g.seqNo, b.rcvNxt)))
    ensures InPlace(b', isn, written, got + Stored(b, g), closed)
  {
    AddAdd(isn, |written|, 1);
    if Fits(b, g) {
      NextPart(b, isn, written, got, closed, g);
    }
    hide Add32, SeqGe, PayloadAt;
  }

  lemma WireCarries(h: History, g: Seg)
    requires HistoryOk(h) && (g in h.wire || Plain(g))
    ensures Carries(g, Isn(h.s), h.written, h.s.finSent)
  {
  }

  lemma Shape(g: Seg, isn: u32, written: seq<byte>, closed: bool)
    requires Carries(g, isn, written, closed)
    ensures !g.rst && (g.fin ==> g.payload == []) && (g.payload != [] || g.fin ==> !g.syn)
  {
  }

  lemma ArriveStores(b: Sock, g: Seg, now: nat)
    requires Valid(b) && Open(b) && !g.rst && (g.fin ==> g.payload == []) && (g.payload != [] || g.fin ==> !g.syn)
    ensures var r := RxSegment(b, g, now, 0).s; Valid(r) && Open(r) && r.rx == b.rx + Stored(b, g)
  {
    hide Add32, SeqGe;
    RxValid(b, g, now);
    if b.dead {
      assert b.rx + [] == b.rx;
    } else {
      SegmentReceiver(b, g, now, 0);
      hide RxSegment, Stored, Valid;
    }
  }

  lemma ArrivePlace(b: Sock, isn: u32, written: seq<byte>, got: seq<byte>, closed: bool, g: Seg, now: nat)
    requires Valid(b) && Open(b) && InPlace(b, isn, written, got, closed) && Short(written)
    requires Carries(g, isn, written, closed) && !Overflows(b, g)
    ensures InPlace(RxSegment(b, g, now, 0).s, isn, written, got + Stored(b, g), closed)
  {
    hide Add32, SeqGe, InPlace, Carries;
    Shape(g, isn, written, closed);
    if b.dead {
      assert got + [] == got;
    } else {
      SegmentReceiver(b, g, now, 0);
      hide RxSegment;
      PlaceKeeps(b, RxSegment(b, g, now, 0).s, isn, written, got, closed, g);
    }
  }

  lemma ArriveKeeps(l: Link, g: Seg, now: nat)
    requires LinkOk(l) && (g in l.h.wire || Plain(g))
    ensures LinkOk(Happen(l, Arrive(g, now)))
  {
    assert |l.b.rx| <= RX_BUF;
    hide HistoryOk, RxSegment, Stored, Overflows, Carries, InPlace, Valid, Isn;
    var isn, written, closed := Isn(l.h.s), l.h.written, l.h.s.finSent;
    WireCarries(l.h, g);
    Shape(g, isn, written, closed);
    ArriveStores(l.b, g, now);
    assert l.taken + (l.b.rx + Stored(l.b, g)) == l.got + Stored(l.b, g);
    if !l.full && !Overflows(l.b, g) {
      ArrivePlace(l.b, isn, written, l.got, closed, g, now);
    }
  }

  lemma RxValid(b: Sock, g: Seg, now: nat)
    requires Valid(b) && Open(b)
    ensures Valid(RxSegment(b, g, now, 0).s)
  {
    hide Add32;
    if !b.dead && !g.rst {
      var b0 := b.(peerWnd := g.window);
      var b1 := if g.ackFlag then RxAck(b0, g.ack) else b;
      RxAckValid(b0, g.ack);
      AckReceiver(b0, g.ack);
      hide RxAck;
      BodyKeeps(b1, g, false);
      hide RxBody;
    }
  }

  lemma HistoryValid(h: History)
    requires HistoryOk(h)
    ensures Valid(h.s)
  {
    hide Add32, Valid;
  }

  lemma SenderKeeps(l: Link, c: Call)
    requires LinkOk(l) && Enabled(l, AtSender(c))
    ensures LinkOk(Happen(l, AtSender(c)))
  {
    hide Do, Add32, HistoryOk, Valid, Allowed, Isn;
    HistoryValid(l.h);
    DoKeeps(l.h, c);
    DoShape(l.h, c);
    HistoryValid(Do(l.h, c));
  }

  /** What a call cannot change once the connection exists. */
  lemma DoShape(h: History, c: Call)
    requires HistoryOk(h) && h.s.state != Listen && Allowed(h, c)
    ensures var h' := Do(h, c);
      && h'.s.state != Listen && Isn(h'.s) == Isn(h.s) && (h.s.finSent ==> h'.s.finSent)
      && (h'.written == h.written || (c.Write? && !h.s.finSent && h'.written == h.written + c.data))
  {
    hide Add32;
    match c {
      case Tick(now) =>
        PollKeeps(h.s, h.written, h.off, now);
        PollListen(h.s, now);
        hide Poll;
      case Receive(g, now, iss) =>
        RxKeeps(h.s, g, now, iss, h.written, h.off);
        hide RxSegment;
      case _ =>
    }
  }

  lemma TakeKeeps(l: Link, n: nat)
    requires LinkOk(l)
    ensures LinkOk(Happen(l, Take(n)))
  {
    hide Add32, HistoryOk, Isn;
    var k := Min(|l.b.rx|, n);
    assert l.taken + l.b.rx[..k] + l.b.rx[k..] == l.taken + l.b.rx;
  }

  lemma OtherKeeps(l: Link, b: Sock)
    requires LinkOk(l) && Valid(b) && SameReceiver(l.b, b)
    ensures LinkOk(Happen(l, Other(b)))
  {
    hide Add32, HistoryOk, Isn, Valid;
  }

  lemma HappenKeeps(l: Link, e: Event)
    requires LinkOk(l) && Enabled(l, e)
    ensures LinkOk(Happen(l, e))
  {
    hide LinkOk, Happen, Allowed, Valid;
    match e {
      case AtSender(c) => SenderKeeps(l, c);
      case Arrive(g, now) => ArriveKeeps(l, g, now);
      case Take(n) => TakeKeeps(l, n);
      case Other(b) => OtherKeeps(l, b);
    }
  }

  ghost function Run(l: Link, es: seq<Event>): Link
    decreases |es|
  {
    if es == [] then l
    else
      var prev := Run(l, es[..|es| - 1]);
      if Valid(prev.h.s) && Valid(prev.b) then Happen(prev, es[|es| - 1]) else prev
  }

  ghost predicate Possible(l: Link, es: seq<Event>)
    decreases |es|
  {
    es == [] || (Possible(l, es[..|es| - 1]) && Enabled(Run(l, es[..|es| - 1]), es[|es| - 1]))
  }

  /** Whatever the channel does to the segments and whatever acknowledgements the sender
      is told, the bytes the receiving application reads are the start of those written,
      unless a payload overflowed the receive buffer. */
  lemma {:induction false} StreamRun(l: Link, es: seq<Event>)
    requires LinkOk(l) && Possible(l, es)
    ensures LinkOk(Run(l, es))
    ensures !Run(l, es).full ==> Run(l, es).taken <= Run(l, es).h.written
    decreases |es|
  {
    if es != [] {
      StreamRun(l, es[..|es| - 1]);
      HappenKeeps(Run(l, es[..|es| - 1]), es[|es| - 1]);
    }
    hide HistoryOk, Add32;
  }
}
