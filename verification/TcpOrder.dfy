/** The same stream when acknowledgements arrive in the order they were sent. */
module TcpOrder {
  import opened Bytes
  import opened TcpSpec
  import opened TcpSender
  import opened TcpLink

  /** A segment of the receiving socket and the place in the stream it acknowledges. */
  datatype Reply = Reply(g: Seg, place: nat)

  /** `back` is all the receiver sent; the sender has heard nothing after `cursor`. */
  datatype Duplex = Duplex(l: Link, back: seq<Reply>, cursor: nat)

  /** The next byte, or the FIN, the receiver waits for. */
  function Place(l: Link): nat {
    |l.got| + if l.b.rxFin then 1 else 0
  }

  ghost predicate ReplyOk(r: Reply, isn: u32, limit: nat) {
    r.g.ackFlag && !r.g.rst && r.g.ack == Add32(isn, r.place) && r.place <= limit
  }

  ghost predicate BackOk(d: Duplex) {
    && d.cursor <= |d.back|
    && (forall j :: 0 <= j < |d.back| ==> ReplyOk(d.back[j], Isn(d.l.h.s), Place(d.l)))
    && (forall i, j :: 0 <= i <= j < |d.back| ==> d.back[i].place <= d.back[j].place)
    && (forall j :: d.cursor <= j < |d.back| ==> d.l.h.off <= d.back[j].place)
  }

  /** The sender has discarded nothing the receiver lacks, and a FIN was sent or taken only
      after the whole stream was stored. */
  ghost predicate OrderOk(d: Duplex) {
    && LinkOk(d.l) && !d.l.full && BackOk(d)
    && d.l.h.off <= |d.l.got|
    && (d.l.h.s.finSent || d.l.b.rxFin ==> d.l.got == d.l.h.written)
  }

  // ── Acknowledgements ───────────────────────────────────────────────────────

  /** What an acknowledgement of place `a` removes from the queue. */
  lemma AckAdvance(s: Sock, written: seq<byte>, off: nat, a: nat)
    requires Sender(s, written, off) && s.state != Listen && Short(written) && a <= |written| + 1
    ensures Advance(s, Add32(Isn(s), a)) == Min(if off <= a then a - off else 0x1_0000_0000 - (off - a), s.sent)
  {
    SubAdd(Isn(s), off, a);
    hide Add32;
  }

  /** Nothing beyond the acknowledged place leaves the queue exactly when the
      acknowledgement is not behind the queue, or nothing is outstanding. */
  lemma StaleAck(s: Sock, written: seq<byte>, off: nat, a: nat)
    requires Sender(s, written, off) && s.state != Listen && Short(written) && a <= |written|
    ensures off + Advance(s, Add32(Isn(s), a)) <= Max(off, a) <==> off <= a || s.sent == 0
  {
    AckAdvance(s, written, off, a);
    hide Add32, Sub32, Advance;
  }

  /** Two bytes are acknowledged and a third is outstanding; a late acknowledgement of the first
      then drops the third. */
  lemma LateAck()
    ensures var s := Connect(0, 0).(state := Established, macKnown := true, synAcked := true, dataBase := 3,
        sndNxt := 4, sent := 1, inflight := 1,
        out := [7]);
      && Sender(s, [5, 6, 7], 2) && s.state != Listen
      && Add32(Isn(s), 1) == 2 && Advance(s, 2) == 1 && DropAcked(s, 2).out == []
  {
    assert [5, 6, 7][2..] == [7];
  }

  // ── Steps ──────────────────────────────────────────────────────────────────

  /** `Tell` is a call at the sender, `Hear` a reply reaching it, `Deliver` a segment
      reaching the receiver, `Answer` a call at the receiver. */
  datatype Event2 = Tell(c: Call) | Hear(j: nat, now: nat) | Deliver(g: Seg, now: nat) | Answer(c: Call)

  function Replies(segs: seq<Seg>, place: nat): (r: seq<Reply>)
    ensures |r| == |segs| && forall i :: 0 <= i < |r| ==> r[i] == Reply(segs[i], place)
  {
    if segs == [] then [] else [Reply(segs[0], place)] + Replies(segs[1..], place)
  }

  predicate Enabled2(d: Duplex, e: Event2)
    requires |d.l.b.rx| <= RX_BUF
  {
    match e
    case Tell(c) => !c.Receive? && Allowed(d.l.h, c) && (c.Write? ==> Short(d.l.h.written + c.data))
    case Hear(j, _) => d.cursor <= j < |d.back|
    case Deliver(g, _) => g in d.l.h.wire && !Overflows(d.l.b, g)
    case Answer(c) => !c.Receive?
  }

  /** A call at the receiving socket. */
  function AnswerStep(b: Sock, c: Call): Step
    requires Valid(b) && !c.Receive?
  {
    match c
    case Write(data) => Step(AppWrite(b, data), [])
    case Close => Step(b.(finReq := true), [])
    case Read(n) => Step(AppRead(b, n), [])
    case Learn => Step(b.(macKnown := true), [])
    case Tick(now) => Poll(b, now)
  }

  ghost function Happen2(d: Duplex, e: Event2): Duplex
    requires Valid(d.l.h.s) && Valid(d.l.b) && Enabled2(d, e)
  {
    match e
    case Tell(c) => d.(l := Happen(d.l, AtSender(c)))
    case Hear(j, now) => d.(l := Happen(d.l, AtSender(Receive(d.back[j].g, now, 0))), cursor := j)
    case Deliver(g, now) =>
      var l := Happen(d.l, Arrive(g, now));
      d.(l := l, back := d.back + Replies(RxSegment(d.l.b, g, now, 0).segs, Place(l)))
    case Answer(c) =>
      var r := AnswerStep(d.l.b, c);
      if c.Read? then d.(l := Happen(d.l, Take(c.n)))
      else d.(l := Happen(d.l, Other(r.s)), back := d.back + Replies(r.segs, Place(d.l)))
  }

  lemma BackGrows(back: seq<Reply>, segs: seq<Seg>, isn: u32, place: nat, limit: nat, cursor: nat, off: nat)
    requires cursor <= |back| && place <= limit && off <= limit
    requires forall j :: 0 <= j < |back| ==> ReplyOk(back[j], isn, place)
    requires forall i, j :: 0 <= i <= j < |back| ==> back[i].place <= back[j].place
    requires forall j :: cursor <= j < |back| ==> off <= back[j].place
    requires forall h :: h in segs ==> h.ackFlag && !h.rst && h.ack == Add32(isn, limit)
    ensures var all := back + Replies(segs, limit);
      && (forall j :: 0 <= j < |all| ==> ReplyOk(all[j], isn, limit))
      && (forall i, j :: 0 <= i <= j < |all| ==> all[i].place <= all[j].place)
      && (forall j :: cursor <= j < |all| ==> off <= all[j].place)
  {
  }

  lemma SenderOf(h: History)
    requires HistoryOk(h)
    ensures Sender(h.s, h.written, h.off) && Valid(h.s)
  {
  }

  lemma TellShape(h: History, c: Call)
    requires HistoryOk(h) && h.s.state != Listen && Allowed(h, c) && !c.Receive?
    ensures var h' := Do(h, c);
      && h'.off == h.off && Isn(h'.s) == Isn(h.s)
      && (h'.written == h.written || (!h.s.finSent && !h'.s.finSent && h.written <= h'.written))
      && (h'.s.finSent && !h.s.finSent ==> h.off == |h.written|)
  {
    hide Add32, Sender, Carries, HistoryOk, Poll;
    SenderOf(h);
    if c.Tick? {
      PollKeeps(h.s, h.written, h.off, c.now);
      if h.s.out == [] {
        FinCarries(h.s, h.written, h.off);
      }
    }
  }

  /** A call at the sender: a FIN goes out only when everything has been stored. */
  lemma TellKeeps(d: Duplex, c: Call)
    requires OrderOk(d) && Enabled2(d, Tell(c))
    ensures OrderOk(Happen2(d, Tell(c)))
  {
    hide LinkOk, HistoryOk, Do, Add32, Isn;
    var l := d.l;
    PlaceBound(l);
    HappenKeeps(l, AtSender(c));
    TellShape(l.h, c);
    Prefixed(l);
    RxFinMeans(l);
  }

  lemma Prefixed(l: Link)
    requires LinkOk(l) && !l.full
    ensures l.got <= l.h.written
  {
  }

  lemma RxFinMeans(l: Link)
    requires LinkOk(l) && !l.full
    ensures l.b.rxFin ==> l.h.s.finSent
  {
  }

  lemma HeardOff(h: History, r: Reply, limit: nat)
    requires HistoryOk(h) && h.s.state != Listen && Short(h.written) && ReplyOk(r, Isn(h.s), limit)
        && limit <= |h.written| + 1
    requires h.off <= r.place
    ensures h.off + Moves(h.s, r.g) <= Min(r.place, |h.written|)
  {
    hide HistoryOk, Add32, Sub32;
    SenderOf(h);
    AckAdvance(h.s, h.written, h.off, r.place);
    hide Advance, Isn;
  }

  lemma ReceiveShape(h: History, g: Seg, now: nat)
    requires HistoryOk(h) && h.s.state != Listen
    ensures var h' := Do(h, Receive(g, now, 0));
      && h'.written == h.written && h'.off == h.off + Moves(h.s, g) && Isn(h'.s) == Isn(h.s)
      && (h'.s.finSent <==> h.s.finSent)
  {
    hide HistoryOk, Sender, Add32, RxSegment, Moves, Isn;
    SenderOf(h);
    RxKeeps(h.s, g, now, 0, h.written, h.off);
  }

  lemma PlaceBound(l: Link)
    requires LinkOk(l) && !l.full
    ensures |l.got| <= |l.h.written| && Place(l) <= |l.h.written| + 1
    ensures HistoryOk(l.h) && l.h.s.state != Listen && Short(l.h.written)
  {
  }

  /** A reply that is not behind an earlier one removes only what was stored. */
  lemma HearKeeps(d: Duplex, j: nat, now: nat)
    requires OrderOk(d) && Enabled2(d, Hear(j, now))
    ensures OrderOk(Happen2(d, Hear(j, now)))
  {
    hide LinkOk, HistoryOk, Do, Add32, Isn, Moves;
    var l, r := d.l, d.back[j];
    var c := Receive(r.g, now, 0);
    PlaceBound(l);
    HappenKeeps(l, AtSender(c));
    HeardOff(l.h, r, Place(l));
    ReceiveShape(l.h, r.g, now);
  }

  lemma PlaceIs(l: Link)
    requires LinkOk(l) && !l.full && (l.b.rxFin ==> l.got == l.h.written)
    ensures l.b.rcvNxt == Add32(Isn(l.h.s), Place(l))
  {
  }

  lemma ArriveGrows(l: Link, g: Seg, now: nat)
    requires LinkOk(l) && !l.full && g in l.h.wire && !Overflows(l.b, g)
    ensures var l' := Happen(l, Arrive(g, now));
      && LinkOk(l') && !l'.full && l'.h == l.h && l.got <= l'.got && (l.b.rxFin ==> l'.b.rxFin)
      && (forall h :: h in RxSegment(l.b, g, now, 0).segs ==> h.ackFlag && !h.rst && h.ack == l'.b.rcvNxt)
  {
    hide Add32, SeqGe, HistoryOk, InPlace, Valid;
    ArriveKeeps(l, g, now);
    WireCarries(l.h, g);
    if !l.b.dead {
      SegmentReceiver(l.b, g, now, 0);
      hide RxSegment, Stored;
    }
  }

  /** At the end of a finished stream nothing more is stored. */
  lemma FinishedStays(l: Link, l': Link)
    requires LinkOk(l') && !l'.full && l'.h == l.h && l.got <= l'.got
    requires l.h.s.finSent ==> l.got == l.h.written
    ensures l'.h.s.finSent || l'.b.rxFin ==> l'.got == l'.h.written
    ensures l'.got <= l'.h.written
  {
  }

  /** A segment at the receiver: the FIN comes last. */
  lemma DeliverKeeps(d: Duplex, g: Seg, now: nat)
    requires OrderOk(d) && Enabled2(d, Deliver(g, now))
    ensures OrderOk(Happen2(d, Deliver(g, now)))
  {
    hide Add32, RxSegment, Isn, Stored, Overflows, Happen;
    var l, isn := d.l, Isn(d.l.h.s);
    var l' := Happen(l, Arrive(g, now));
    hide LinkOk;
    ArriveGrows(l, g, now);
    FinishedStays(l, l');
    PlaceIs(l');
    assert Place(l) <= Place(l');
    BackGrows(d.back, RxSegment(l.b, g, now, 0).segs, isn, Place(l), Place(l'), d.cursor, l.h.off);
  }

  lemma AnswerReceiver(b: Sock, c: Call)
    requires Valid(b) && Open(b) && !c.Receive? && !c.Read?
    ensures var r := AnswerStep(b, c);
      && Valid(r.s) && SameReceiver(b, r.s)
      && forall h :: h in r.segs ==> h.ackFlag && !h.rst && h.ack == b.rcvNxt
  {
    hide Add32;
    if c.Tick? {
      PollReceiver(b, c.now);
      hide Poll;
    }
  }

  lemma RetryReceiver(b: Sock, now: nat, g: Seg)
    requires Valid(b) && !b.dead
    ensures var r := Retry(b, now, g); Valid(r.s) && SameReceiver(b, r.s) && forall h :: h in r.segs ==> h == g
  {
    hide Add32;
    if b.retries + 1 > MAX_RETRIES {
      assert SameReceiver(b, b.(retries := b.retries + 1, dead := true));
    } else {
      assert SameReceiver(b, b.(retries := b.retries + 1, deadline := now + RTO_TICKS));
    }
  }

  lemma PollReceiver(b: Sock, now: nat)
    requires Valid(b) && Open(b)
    ensures var r := Poll(b, now);
      && Valid(r.s) && SameReceiver(b, r.s)
      && forall h :: h in r.segs ==> h.ackFlag && !h.rst && h.ack == b.rcvNxt
  {
    hide Add32, Retry;
    if !b.dead {
      RetryReceiver(b, now, DataSeg(b, Add32(b.dataBase, b.sent - b.inflight), b.out[b.sent - b.inflight..b.sent]));
      RetryReceiver(b, now, FinSeg(b, b.finSeq));
    }
  }

  lemma ReceiverOf(l: Link)
    requires LinkOk(l)
    ensures Valid(l.b) && Open(l.b) && Valid(l.h.s)
  {
    hide Valid, HistoryOk;
    HistoryValid(l.h);
  }

  lemma AnswerKeeps(d: Duplex, c: Call)
    requires OrderOk(d) && Enabled2(d, Answer(c))
    ensures OrderOk(Happen2(d, Answer(c)))
  {
    hide LinkOk, AnswerStep, Poll, Add32, Isn, Valid;
    var l := d.l;
    ReceiverOf(l);
    if c.Read? {
      TakeKeeps(l, c.n);
    } else {
      var r := AnswerStep(l.b, c);
      AnswerReceiver(l.b, c);
      OtherKeeps(l, r.s);
      PlaceIs(l);
      BackGrows(d.back, r.segs, Isn(l.h.s), Place(l), Place(l), d.cursor, l.h.off);
    }
  }

  /** What left the sender's queue is stored at the receiver, what is stored is the start of what
      was written, and all of it once the FIN was taken. */
  ghost predicate InStep(d: Duplex) {
    && d.l.h.off <= |d.l.h.written| && d.l.h.written[..d.l.h.off] <= d.l.got <= d.l.h.written
    && (d.l.b.rxFin ==> d.l.got == d.l.h.written)
  }

  ghost function Run2(d: Duplex, es: seq<Event2>): Duplex
    decreases |es|
  {
    if es == [] then d
    else
      var prev := Run2(d, es[..|es| - 1]);
      if Valid(prev.l.h.s) && Valid(prev.l.b) && Enabled2(prev, es[|es| - 1]) then Happen2(prev, es[|es| - 1]) else prev
  }

  /** With replies in order and no overflow, in every reachable state: what left the
      sender's queue is stored at the receiver, the receiver's bytes are the start of the
      stream, and a FIN was accepted only after the whole stream. Events that are not
      possible change nothing. */
  lemma {:induction false} OrderedRun(d: Duplex, es: seq<Event2>)
    requires OrderOk(d)
    ensures OrderOk(Run2(d, es)) && InStep(Run2(d, es))
    decreases |es|
  {
    if es != [] {
      OrderedRun(d, es[..|es| - 1]);
      var prev, e := Run2(d, es[..|es| - 1]), es[|es| - 1];
      if Valid(prev.l.h.s) && Valid(prev.l.b) && Enabled2(prev, e) {
        match e {
          case Tell(c) => TellKeeps(prev, c);
          case Hear(j, now) => HearKeeps(prev, j, now);
          case Deliver(g, now) => DeliverKeeps(prev, g, now);
          case Answer(c) => AnswerKeeps(prev, c);
        }
      }
    }
    hide Happen2, BackOk, Add32;
  }

  // ── The start ──────────────────────────────────────────────────────────────

  /** The three segments of the handshake leave two sockets that expect each other's first
      byte. */
  lemma Handshake(issA: u32, issB: u32, t0: nat, t1: nat, t2: nat, t3: nat)
    ensures var a := Connect(issA, t0);
      var r1 := RxSegment(Blank(), SynSeg(a), t1, issB);
      && |r1.segs| == 1
      && var r2 := RxSegment(a, r1.segs[0], t2, 0);
         && |r2.segs| == 1
         && var r3 := RxSegment(r1.s, r2.segs[0], t3, 0);
            && r2.s.state == Established && r3.s.state == Established
            && r3.s.rcvNxt == Isn(r2.s) && r2.s.rcvNxt == Isn(r3.s)
            && Sender(r2.s, [], 0) && Sender(r3.s, [], 0) && r2.s.rx == [] && r3.s.rx == [] && !r2.s.rxFin
               && !r3.s.rxFin && !r2.s.finSent && !r3.s.finSent
  {
  }

  /** Such a pair starts a stream. */
  lemma Starts(h: History, b: Sock)
    requires HistoryOk(h) && h.written == [] && h.off == 0 && Open(h.s) && !h.s.finSent
    requires Valid(b) && Open(b) && b.rx == [] && !b.rxFin && b.rcvNxt == Isn(h.s)
    ensures OrderOk(Duplex(Link(h, b, [], [], false), [], 0))
  {
  }

  /** The client's history once the handshake is done, and the server's. */
  ghost function ClientSide(issA: u32, issB: u32, t0: nat, t1: nat, t2: nat): History {
    var a := Connect(issA, t0);
    var r1 := RxSegment(Blank(), SynSeg(a), t1, issB);
    if |r1.segs| == 0 then History(a, [], 0, []) else Do(History(a, [], 0, []), Receive(r1.segs[0], t2, 0))
  }

  ghost function ServerSide(issA: u32, issB: u32, t0: nat, t1: nat, t2: nat, t3: nat): History {
    var h := Do(History(Blank(), [], 0, []), Receive(SynSeg(Connect(issA, t0)), t1, issB));
    var wire := ClientSide(issA, issB, t0, t1, t2).wire;
    if |wire| == 0 || !Valid(h.s) then h else Do(h, Receive(wire[0], t3, 0))
  }

  lemma Connected(issA: u32, issB: u32, t0: nat, t1: nat, t2: nat, t3: nat)
    ensures var a, b := ClientSide(issA, issB, t0, t1, t2), ServerSide(issA, issB, t0, t1, t2, t3);
      && HistoryOk(a) && HistoryOk(b) && a.written == [] && b.written == []
      && a.s.state == Established && b.s.state == Established && a.s.rcvNxt == Isn(b.s) && b.s.rcvNxt == Isn(a.s)
      && a.s.rx == [] && b.s.rx == [] && !a.s.rxFin && !b.s.rxFin && !a.s.finSent && !b.s.finSent
  {
    hide RxSegment, HistoryOk, Sender, Add32, Valid, Moves, Connect, Blank, Isn;
    Handshake(issA, issB, t0, t1, t2, t3);
    FreshHistories(issA, t0);
    var a0, b0 := History(Connect(issA, t0), [], 0, []), History(Blank(), [], 0, []);
    HistoryValid(a0);
    HistoryValid(b0);
    var syn := Receive(SynSeg(a0.s), t1, issB);
    var b1 := Do(b0, syn);
    DoKeeps(b0, syn);
    HistoryValid(b1);
    assert b1.wire == RxSegment(b0.s, syn.g, t1, issB).segs;
    DoKeeps(a0, Receive(b1.wire[0], t2, 0));
    var a1 := ClientSide(issA, issB, t0, t1, t2);
    assert a1.wire == RxSegment(a0.s, b1.wire[0], t2, 0).segs;
    DoKeeps(b1, Receive(a1.wire[0], t3, 0));
  }

  lemma FreshHistories(iss: u32, now: nat)
    ensures HistoryOk(History(Connect(iss, now), [], 0, [])) && HistoryOk(History(Blank(), [], 0, []))
  {
    SenderRun(Connect(iss, now), []);
    SenderRun(Blank(), []);
  }

  /** From the first SYN on, in both directions: with replies in order and no overflow, what a
      sender discarded is stored at the other end, and that is the start of what was written. */
  lemma ConnectedRun(issA: u32, issB: u32, t0: nat, t1: nat, t2: nat, t3: nat, es: seq<Event2>)
    ensures var a, b := ClientSide(issA, issB, t0, t1, t2), ServerSide(issA, issB, t0, t1, t2, t3);
      && InStep(Run2(Duplex(Link(a, b.s, [], [], false), [], 0), es))
      && InStep(Run2(Duplex(Link(b, a.s, [], [], false), [], 0), es))
  {
    Connected(issA, issB, t0, t1, t2, t3);
    var a, b := ClientSide(issA, issB, t0, t1, t2), ServerSide(issA, issB, t0, t1, t2, t3);
    hide ClientSide, ServerSide, Run2, OrderOk, InStep;
    Starts(a, b.s);
    Starts(b, a.s);
    OrderedRun(Duplex(Link(a, b.s, [], [], false), [], 0), es);
    OrderedRun(Duplex(Link(b, a.s, [], [], false), [], 0), es);
  }
}
