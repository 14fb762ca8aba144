/** The socket in place: fixed buffers and fields, call by call as the value model says. */
module TcpClass {
  import opened Bytes
  import opened TcpSpec

  /** Moves `a[n..len]` to the front. */
  method ShiftDown(a: array<byte>, n: nat, len: nat)
    requires n <= len <= a.Length
    modifies a
    ensures a[..len - n] == old(a[n..len])
  {
    var i := 0;
    while i < len - n
      invariant 0 <= i <= len - n
      invariant forall k :: 0 <= k < i ==> a[k] == old(a[n + k])
      invariant forall k :: i <= k < a.Length ==> a[k] == old(a[k])
    {
      a[i] := a[n + i];
      i := i + 1;
    }
  }

  /** Writes `data` into `a` from `off` on. */
  method CopyIn(a: array<byte>, off: nat, data: seq<byte>)
    requires off + |data| <= a.Length
    modifies a
    ensures a[..off + |data|] == old(a[..off]) + data
  {
    var i := 0;
    while i < |data|
      invariant 0 <= i <= |data|
      invariant forall k :: 0 <= k < off ==> a[k] == old(a[k])
      invariant forall k :: 0 <= k < i ==> a[off + k] == data[k]
    {
      a[off + i] := data[i];
      i := i + 1;
    }
  }

  lemma AddZero(a: u32)
    ensures Add32(a, 0) == a
  {
  }

  class TcpSocket {
    var state: TcpState
    var macKnown: bool
    var iss: u32
    var dataBase: u32
    var sndNxt: u32
    var sent: nat
    var inflight: nat
    var rcvNxt: u32
    var peerWnd: nat
    var synAcked: bool
    var finReq: bool
    var finSent: bool
    var finSeq: u32
    var finAcked: bool
    var rxFin: bool
    const out: array<byte>
    var outLen: nat
    const rx: array<byte>
    var rxLen: nat
    var deadline: nat
    var retries: nat
    var dead: bool

    ghost predicate Shape()
      reads this
    {
      out.Length == TX_BUF && rx.Length == RX_BUF && out != rx && outLen <= TX_BUF && rxLen <= RX_BUF
    }

    ghost function View(): Sock
      requires Shape()
      reads this, out, rx
    {
      Sock(state, macKnown, iss, dataBase, sndNxt, sent, inflight, rcvNxt, peerWnd, synAcked, finReq, finSent,
          finSeq, finAcked,
           rxFin, out[..outLen], rx[..rxLen], deadline, retries, dead)
    }

    ghost predicate Ok()
      reads this, out, rx
    {
      Shape() && Valid(View())
    }

    constructor ()
      ensures Ok() && fresh(out) && fresh(rx) && View() == Blank()
    {
      state, macKnown, iss, dataBase, sndNxt, sent, inflight, rcvNxt := Listen, false, 0, 0, 0, 0, 0, 0;
      peerWnd, synAcked, finReq, finSent, finSeq, finAcked, rxFin := 4096, false, false, false, 0, false, false;
      out, rx := new byte[TX_BUF](_ => 0), new byte[RX_BUF](_ => 0);
      outLen, rxLen, deadline, retries, dead := 0, 0, 0, 0, false;
    }

    method AppWrite(data: seq<byte>) returns (ok: bool)
      requires Ok()
      modifies this`outLen, this`sndNxt, out
      ensures Ok() && ok == CanWrite(old(View()), data) && View() == TcpSpec.AppWrite(old(View()), data)
    {
      hide Add32;
      if state != Established && state != CloseWait { return false; }
      if outLen + |data| > TX_BUF { return false; }
      CopyIn(out, outLen, data);
      outLen := outLen + |data|;
      sndNxt := Add32(dataBase, outLen);
      return true;
    }

    /** Hands over and removes up to `max` received bytes. */
    method AppRead(max: nat) returns (buf: seq<byte>)
      requires Ok()
      modifies this`rxLen, rx
      ensures Ok() && View() == TcpSpec.AppRead(old(View()), max) && buf == old(View()).rx[..Min(old(rxLen), max)]
    {
      hide Add32;
      var n := Min(rxLen, max);
      buf := rx[..n];
      ShiftDown(rx, n, rxLen);
      rxLen := rxLen - n;
    }

    method RxAck(ack: u32)
      requires Ok()
      modifies this, out
      ensures Ok() && View() == TcpSpec.RxAck(old(View()), ack)
    {
      hide Add32, Sub32, DropAcked, NoteSyn, NoteFin, Valid;
      RxAckValid(View(), ack);
      DropValid(View(), ack);
      Drop(ack);
      NotesKeep(View(), ack);
      MarkSyn(ack);
      NotesKeep(View(), ack);
      MarkFin(ack);
    }

    method MarkSyn(ack: u32)
      requires Shape()
      modifies this`synAcked, this`deadline
      ensures Shape() && View() == NoteSyn(old(View()), ack)
    {
      if !synAcked && (state == SynSent || state == SynRcvd) && ack == sndNxt {
        synAcked, deadline := true, 0;
      }
    }

    method MarkFin(ack: u32)
      requires Shape()
      modifies this`finAcked, this`dead
      ensures Shape() && View() == NoteFin(old(View()), ack)
    {
      hide SeqGt;
      if finSent && SeqGt(ack, finSeq) && !finAcked {
        finAcked := true;
        if rxFin { dead := true; }
      }
    }

    /** Removes the acknowledged bytes from the queue. */
    method Drop(ack: u32)
      requires Ok()
      modifies this`outLen, this`dataBase, this`sndNxt, this`sent, this`inflight, out
      ensures Shape() && View() == DropAcked(old(View()), ack)
    {
      hide Add32, Sub32;
      var adv := Min(Sub32(ack, dataBase), sent);
      if adv > 0 {
        RemoveHead(adv);
      }
    }

    method RemoveHead(adv: nat)
      requires Shape() && 0 < adv <= sent <= outLen
      modifies this`outLen, this`dataBase, this`sndNxt, this`sent, this`inflight, out
      ensures Shape() && outLen == old(outLen) - adv && out[..outLen] == old(out[..outLen])[adv..]
      ensures dataBase == Add32(old(dataBase), adv) && sndNxt == Add32(dataBase, outLen)
      ensures sent == old(sent) - adv && inflight == Max(old(inflight) - adv, 0)
    {
      hide Add32;
      Compact(adv);
      dataBase := Add32(dataBase, adv);
      sndNxt := Add32(dataBase, outLen);
      sent := sent - adv;
      inflight := Max(inflight - adv, 0);
      AddZero(dataBase);
      assert outLen == 0 ==> dataBase == sndNxt;
      if outLen == 0 { dataBase := sndNxt; }
    }

    method Compact(adv: nat)
      requires Shape() && adv <= outLen
      modifies this`outLen, out
      ensures Shape() && outLen == old(outLen) - adv && out[..outLen] == old(out[..outLen])[adv..]
    {
      ghost var rest := out[..outLen][adv..];
      assert rest == out[adv..outLen];
      ShiftDown(out, adv, outLen);
      outLen := outLen - adv;
    }

    // ── Emission ─────────────────────────────────────────────────────────────

    function Ack(): Seg
      reads this
    {
      Seg(sndNxt, rcvNxt, false, true, false, false, WINDOW, [])
    }

    // ── Inbound ──────────────────────────────────────────────────────────────

    method RxData(g: Seg) returns (segs: seq<Seg>)
      requires Ok()
      modifies this`rxLen, this`rcvNxt, rx
      ensures Ok() && Step(View(), segs) == TcpSpec.RxData(old(View()), g)
    {
      hide Add32;
      if g.seqNo == rcvNxt {
        var take := Min(|g.payload|, RX_BUF - rxLen);
        CopyIn(rx, rxLen, g.payload[..take]);
        rxLen := rxLen + take;
        rcvNxt := Add32(rcvNxt, |g.payload|);
      }
      segs := [Ack()];
    }

    method RxFin(g: Seg, synPhase: bool) returns (segs: seq<Seg>)
      requires Ok()
      modifies this`rcvNxt, this`rxFin, this`state, this`dead
      ensures Ok() && Step(View(), segs) == TcpSpec.RxFin(old(View()), g, synPhase)
    {
      hide Add32, SeqGe;
      var seqNo := Add32(g.seqNo, |g.payload|);
      if SeqGe(seqNo, rcvNxt) {
        rcvNxt := Add32(seqNo, 1);
        rxFin := true;
        if state == Established && !synPhase { state := CloseWait; }
        if finSent && finAcked { dead := true; }
      }
      segs := [Ack()];
    }

    method RxBody(g: Seg, synPhase: bool) returns (segs: seq<Seg>)
      requires Ok()
      modifies this`rxLen, this`rcvNxt, this`rxFin, this`state, this`dead, rx
      ensures Ok() && Step(View(), segs) == TcpSpec.RxBody(old(View()), g, synPhase)
    {
      hide Valid, TcpSpec.RxData, TcpSpec.RxFin;
      segs := [];
      if g.payload != [] {
        segs := RxData(g);
      }
      if g.fin {
        var more := RxFin(g, synPhase);
        segs := segs + more;
      }
    }

    method NumberStream(isn: u32)
      modifies this`iss, this`sndNxt, this`dataBase, this`outLen, this`sent, this`inflight
      ensures iss == isn && sndNxt == dataBase == Add32(isn, 1) && outLen == sent == inflight == 0
    {
      iss, sndNxt, dataBase := isn, Add32(isn, 1), Add32(isn, 1);
      outLen, sent, inflight := 0, 0, 0;
    }

    method ClearFlags()
      modifies this`synAcked, this`finReq, this`finSent, this`finAcked, this`rxFin
      ensures !synAcked && !finReq && !finSent && !finAcked && !rxFin
    {
      synAcked, finReq, finSent, finAcked, rxFin := false, false, false, false, false;
    }

    method Expect(next: u32, now: nat)
      modifies this`macKnown, this`rcvNxt, this`state, this`rxLen, this`retries, this`deadline
      ensures macKnown && rcvNxt == next && state == SynRcvd && rxLen == retries == 0 && deadline == now + RTO_TICKS
    {
      macKnown, rcvNxt, state, rxLen, retries, deadline := true, next, SynRcvd, 0, 0, now + RTO_TICKS;
    }

    lemma Emptied()
      requires Shape() && outLen == rxLen == 0
      ensures View() == Sock(state, macKnown, iss, dataBase, sndNxt, sent, inflight, rcvNxt, peerWnd, synAcked, finReq,
                             finSent, finSeq, finAcked, rxFin, [], [], deadline, retries, dead)
    {
    }

    method RxSyn(g: Seg, now: nat, isn: u32) returns (segs: seq<Seg>)
      requires Ok()
      modifies this
      ensures Ok() && Step(View(), segs) == TcpSpec.RxSyn(old(View()), g, now, isn)
    {
      hide Add32;
      NumberStream(isn);
      ClearFlags();
      Expect(Add32(g.seqNo, 1), now);
      segs := [Seg(iss, rcvNxt, true, true, false, false, WINDOW, [])];
      Emptied();
      AddZero(Add32(isn, 1));
    }

    method RxSynAck(g: Seg) returns (segs: seq<Seg>)
      requires Ok()
      modifies this`rcvNxt, this`synAcked, this`deadline
      ensures Ok() && Step(View(), segs) == TcpSpec.RxSynAck(old(View()), g)
    {
      hide Add32;
      segs := [];
      rcvNxt := Add32(g.seqNo, 1);
      if g.ackFlag && g.ack == Add32(iss, 1) {
        synAcked, deadline := true, 0;
        segs := [Ack()];
      }
    }

    method InSynSent(g: Seg) returns (segs: seq<Seg>)
      requires Ok()
      modifies this, rx
      ensures Ok() && Step(View(), segs) == TcpSpec.InSynSent(old(View()), g)
    {
      hide Add32, TcpSpec.RxBody, TcpSpec.RxSynAck;
      segs := RxSynAck(g);
      if synAcked { state := Established; }
      var more := RxBody(g, true);
      segs := segs + more;
    }

    method InSynRcvd(g: Seg, now: nat) returns (segs: seq<Seg>)
      requires Ok()
      modifies this, rx
      ensures Ok() && Step(View(), segs) == TcpSpec.InSynRcvd(old(View()), g, now)
    {
      hide Add32, TcpSpec.RxBody;
      segs := [];
      if g.syn {
        rcvNxt, deadline, retries := Add32(g.seqNo, 1), now + RTO_TICKS, 0;
        segs := [Seg(iss, rcvNxt, true, true, false, false, WINDOW, [])];
      } else if synAcked {
        state := Established;
        segs := RxBody(g, true);
      }
    }

    method RxState(g: Seg, now: nat, isn: u32) returns (segs: seq<Seg>)
      requires Ok()
      modifies this, rx
      ensures Ok() && Step(View(), segs) == TcpSpec.RxState(old(View()), g, now, isn)
    {
      hide Add32, TcpSpec.RxBody, TcpSpec.RxSyn, TcpSpec.InSynSent, TcpSpec.InSynRcvd;
      segs := [];
      match state {
        case Listen =>
          if g.syn { segs := RxSyn(g, now, isn); } else { dead := true; }
        case SynSent =>
          if g.syn { segs := InSynSent(g); }
        case SynRcvd =>
          segs := InSynRcvd(g, now);
        case _ =>
          if g.syn { segs := [Ack()]; }
          var more := RxBody(g, false);
          segs := segs + more;
      }
    }

    /** Handles one inbound segment. */
    method RxSegment(g: Seg, now: nat, isn: u32) returns (segs: seq<Seg>)
      requires Ok()
      modifies this, out, rx
      ensures Ok() && Step(View(), segs) == TcpSpec.RxSegment(old(View()), g, now, isn)
    {
      hide Add32, TcpSpec.RxState, TcpSpec.RxAck;
      segs := [];
      if dead { return; }
      if g.rst {
        dead := true;
        return;
      }
      if g.ackFlag {
        peerWnd := g.window;
        RxAck(g.ack);
      }
      segs := RxState(g, now, isn);
    }

    // ── Outbound ─────────────────────────────────────────────────────────────

    method Retry(now: nat, g: Seg) returns (segs: seq<Seg>)
      requires Ok() && !dead
      modifies this`retries, this`deadline, this`dead
      ensures Ok() && Step(View(), segs) == TcpSpec.Retry(old(View()), now, g)
    {
      hide Add32;
      segs := [];
      retries := retries + 1;
      if retries > MAX_RETRIES {
        dead := true;
        return;
      }
      segs := [g];
      deadline := now + RTO_TICKS;
    }

    method SendFresh(now: nat) returns (segs: seq<Seg>)
      requires Ok() && inflight == 0 && sent < outLen && Chunk(View()) > 0
      modifies this`sent, this`inflight, this`retries, this`deadline
      ensures Ok()
      ensures var v := old(View());
        && View() == v.(sent := v.sent + Chunk(v), inflight := Chunk(v), retries := 0, deadline := now + RTO_TICKS)
        && segs == [DataSeg(v, Add32(v.dataBase, v.sent), v.out[v.sent..v.sent + Chunk(v)])]
    {
      hide Add32;
      var chunk := Min(Min(outLen - sent, TCP_MSS), peerWnd);
      segs := [Seg(Add32(dataBase, sent), rcvNxt, false, true, false, false, WINDOW, out[sent..sent + chunk])];
      assert out[..outLen][sent..sent + chunk] == out[sent..sent + chunk];
      sent, inflight, retries, deadline := sent + chunk, chunk, 0, now + RTO_TICKS;
    }

    method SendFin(now: nat) returns (segs: seq<Seg>)
      requires Ok()
      modifies this`finSent, this`finSeq, this`retries, this`deadline
      ensures Ok()
      ensures var v := old(View());
        && View() == v.(finSent := true, finSeq := v.sndNxt, retries := 0, deadline := now + RTO_TICKS)
        && segs == [FinSeg(v, v.sndNxt)]
    {
      hide Add32;
      segs := [Seg(sndNxt, rcvNxt, false, true, true, false, WINDOW, [])];
      finSent, finSeq, retries, deadline := true, sndNxt, 0, now + RTO_TICKS;
    }

    /** Retransmits, sends fresh data, or sends the FIN: at most one segment. */
    method Poll(now: nat) returns (segs: seq<Seg>)
      requires Ok()
      modifies this
      ensures Ok() && Step(View(), segs) == TcpSpec.Poll(old(View()), now)
    {
      hide Add32, TcpSpec.Retry;
      segs := [];
      if dead || !macKnown { return; }
      if !synAcked && (state == SynSent || state == SynRcvd) {
        if now >= deadline {
          segs := Retry(now, if state == SynSent then Seg(iss, 0, true, false, false, false, WINDOW, [])
                             else Seg(iss, rcvNxt, true, true, false, false, WINDOW, []));
        }
        return;
      }
      if inflight > 0 {
        if now >= deadline {
          var start := sent - inflight;
          assert out[..outLen][start..start + inflight] == out[start..start + inflight];
          segs := Retry(now, Seg(Add32(dataBase, start), rcvNxt, false, true, false, false, WINDOW,
              out[start..start + inflight]));
        }
        return;
      }
      if sent < outLen {
        if Min(Min(outLen - sent, TCP_MSS), peerWnd) != 0 {
          segs := SendFresh(now);
        }
        return;
      }
      if finReq && !finSent {
        segs := SendFin(now);
        return;
      }
      if finSent && !finAcked && now >= deadline {
        segs := Retry(now, Seg(finSeq, rcvNxt, false, true, true, false, WINDOW, []));
      }
    }
  }
}
