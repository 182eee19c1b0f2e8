/**
  What a packet from the app does to a known session, told in the fields of the
  packet and the session alone: state, numbers, what is queued, and what the app
  is sent in return.
*/
module TcpPackets {
  import opened Words
  import opened TcpQueue
  import opened TcpModel
  import opened TcpAccounting

  // ---------- what the app is sent ----------

  /** The window field of the next packet. */
  function Announced(c: Conn): u32 {
    Shr(c.t.recvWindow, c.t.recvScale)
  }

  /** A bare acknowledgement. */
  function AckPacket(c: Conn, ackno: u32): Out {
    Out(c.t.localSeq, ackno, Announced(c), false, true, false, false, [])
  }

  /** A reset; before the SYN was answered it acknowledges the SYN. */
  function ResetPacket(c: Conn): Out {
    Out(c.t.localSeq, if c.t.state == Listen then Mod32(c.t.remoteSeq + 1) else 0, Announced(c),
        false, c.t.state == Listen, false, true, [])
  }

  /** Exactly this packet more, if the tun device takes it. */
  predicate Told(c: Conn, d: Conn, o: Out, ok: bool) {
    d.log.tun == if ok then c.log.tun + [o] else c.log.tun
  }

  predicate Silent(c: Conn, d: Conn) {
    d.log.tun == c.log.tun
  }

  // ---------- packets that are handled ----------

  /** handle_tcp goes into the packet: not urgent, the session not closed, and past CONNECT on port 443. */
  predicate Handled(c: Conn, p: Packet) {
    && |p.data| < 0x1_0000 && !p.urg && c.t.state != Closing && c.t.state != Close
    && (c.t.dest == TLS_PORT ==> c.t.connectSent == Accepted)
  }

  /** Data for a closed socket, or after the FIN. */
  predicate Refused(c: Conn, p: Packet) {
    p.data != [] && (c.t.socket < 0 || c.t.state == CloseWait)
  }

  /** Nothing beyond what was sent is acknowledged, and nothing less. */
  predicate Level(c: Conn, p: Packet) {
    !p.ack || p.ackno == c.t.localSeq
  }

  /** The session with the packet's time, window and data taken in. */
  function TakenIn(c: Conn, p: Packet, now: int): Conn
    requires |p.data| < 0x1_0000
  {
    var s := Stamp(c, p, now);
    if p.data != [] then Queue(s, p) else s
  }

  lemma Routed(c: Conn, p: Packet, now: int, sendOk: bool, ok: bool)
    requires Handled(c, p)
    ensures HandlePacket(c, p, now, sendOk, ok) == if Refused(c, p) then WriteRst(Stamp(c, p, now), ok)
                                                   else HandleFlags(TakenIn(c, p, now), p, ok)
  {
    hide WriteRst, HandleFlags, QueueTcp;
  }

  /** What taking in leaves alone. */
  lemma TakenInFields(c: Conn, p: Packet, now: int)
    requires |p.data| < 0x1_0000
    ensures var s := TakenIn(c, p, now);
            && s.t == c.t.(time := now, sendWindow := Mod32(p.window * Pow2(c.t.sendScale)), forward := s.t.forward)
            && s.log == c.log && (p.data == [] ==> s.t.forward == c.t.forward)
  {
    hide QueueTcp, Mod32, Pow2;
  }

  /** An urgent packet is dropped. */
  lemma UrgentIgnored(c: Conn, p: Packet, now: int, sendOk: bool, ok: bool)
    requires |p.data| < 0x1_0000 && p.urg
    ensures HandlePacket(c, p, now, sendOk, ok) == c
  {
  }

  /** A closed session answers with a reset and stays as it is. */
  lemma ClosedAnswersReset(c: Conn, p: Packet, now: int, sendOk: bool, ok: bool)
    requires |p.data| < 0x1_0000 && !p.urg && (c.t.state == Closing || c.t.state == Close)
    requires c.t.dest == TLS_PORT ==> c.t.connectSent == Accepted
    ensures var d := HandlePacket(c, p, now, sendOk, ok);
            && d.t == c.t && Told(c, d, ResetPacket(c), ok) && d.log == c.log.(tun := d.log.tun)
  {
  }

  /** Whatever else it does, a packet sets the idle timer and the send window. */
  lemma PacketStamps(c: Conn, p: Packet, now: int, sendOk: bool, ok: bool)
    requires Handled(c, p)
    ensures var d := HandlePacket(c, p, now, sendOk, ok);
            && d.t.time == now && d.t.sendWindow == Mod32(p.window * Pow2(c.t.sendScale))
            && d.t.socket == c.t.socket && d.t.localSeq == c.t.localSeq && d.t.recvWindow == c.t.recvWindow
            && d.log.up == c.log.up && d.log.down == c.log.down && d.log.closed == c.log.closed
  {
    Routed(c, p, now, sendOk, ok);
    TakenInFields(c, p, now);
    FlagsKeepFields(TakenIn(c, p, now), p, ok);
    RstKeepsFields(Stamp(c, p, now), ok);
    hide TakenIn, HandleFlags, WriteRst, Mod32, Pow2;
  }

  /** No answer to a packet touches these. */
  predicate SameFields(c: Conn, d: Conn) {
    && d.t.time == c.t.time && d.t.sendWindow == c.t.sendWindow && d.t.recvWindow == c.t.recvWindow
    && d.t.socket == c.t.socket && d.t.localSeq == c.t.localSeq && d.t.forward == c.t.forward
    && d.log.up == c.log.up && d.log.down == c.log.down && d.log.closed == c.log.closed
  }

  lemma RstKeepsFields(c: Conn, ok: bool)
    ensures SameFields(c, WriteRst(c, ok))
  {
    hide Build, Mod32;
  }

  lemma CurrentKeepsFields(c: Conn, p: Packet, ok: bool)
    ensures SameFields(c, HandleCurrent(c, p, ok))
  {
    hide Build, Mod32;
  }

  lemma FlagsKeepFields(c: Conn, p: Packet, ok: bool)
    ensures SameFields(c, HandleFlags(c, p, ok))
  {
    RstKeepsFields(c, ok);
    CurrentKeepsFields(c, p, ok);
    hide CompareU32, Mod32, WriteRst, HandleCurrent;
  }

  /** Data that cannot be forwarded any more is answered with a reset. */
  lemma RefusedDataResets(c: Conn, p: Packet, now: int, sendOk: bool, ok: bool)
    requires Handled(c, p) && Refused(c, p)
    ensures var d := HandlePacket(c, p, now, sendOk, ok);
            && d.t.state == Closing && d.t.forward == c.t.forward && d.t.acked == c.t.acked
            && Told(c, d, ResetPacket(c), ok)
  {
    Routed(c, p, now, sendOk, ok);
    hide Pow2, QueueTcp;
  }

  /** Other data is queued unless it is behind remote_seq; what was queued for other positions stays. */
  lemma DataIsQueued(c: Conn, p: Packet, now: int, sendOk: bool, ok: bool)
    requires Handled(c, p) && !Refused(c, p) && AllSound(c.t.forward)
    ensures var d := HandlePacket(c, p, now, sendOk, ok);
            if p.data == [] || CompareU32(c.t.sub, p.seqno, c.t.remoteSeq) < 0 then d.t.forward == c.t.forward
            else
              && (exists s :: s in d.t.forward && s.seqno == p.seqno && |s.data| >= |p.data|)
              && (forall s | s in c.t.forward && s.seqno != p.seqno :: s in d.t.forward)
  {
    Routed(c, p, now, sendOk, ok);
    TakenInFields(c, p, now);
    FlagsKeepFields(TakenIn(c, p, now), p, ok);
    hide HandleFlags;
    if p.data != [] && CompareU32(c.t.sub, p.seqno, c.t.remoteSeq) >= 0 {
      OfferedIsHeld(c.t.sub, c.t.forward, p.seqno, p.psh, p.data);
    }
    hide CompareU32, Enqueue, Pow2, Mod32;
  }

  lemma HeldAlready(q: seq<Segment>, i: nat)
    requires AllSound(q) && i < |q|
    ensures q[i].len <= |q[i].data|
  {
    assert q[i] in q && Sound(q[i]);
  }

  /** Whatever the comparison answers, the offered position is held afterwards, and no other is given up. */
  lemma OfferedIsHeld(m: Subtraction, q: seq<Segment>, seqno: u32, psh: bool, data: seq<u8>)
    requires |data| < 0x1_0000 && AllSound(q)
    ensures var r := Enqueue(m, q, seqno, psh, data);
            && (exists s :: s in r && s.seqno == seqno && |s.data| >= |data|)
            && (forall s | s in q && s.seqno != seqno :: s in r)
  {
    var i := Scan(m, q, seqno);
    var n := Segment(seqno, |data|, 0, psh, data);
    if i < |q| {
      SameWord(m, q[i].seqno, seqno);
    }
    hide Scan, CompareU32, AllSound;
    if i < |q| && q[i].seqno == seqno {
      HeldAlready(q, i);
      ReplaceKeepsOthers(q, i, q[i].(data := data));
      assert q[i] in q;
    } else {
      InsertKeepsOthers(q, i, n);
    }
  }

  // ---------- flags ----------

  /** State, numbers and everything sent are as before. */
  predicate NothingSaid(c: Conn, d: Conn) {
    d.t.state == c.t.state && d.t.remoteSeq == c.t.remoteSeq && d.t.acked == c.t.acked && d.log == c.log
  }

  /** A reset closes the session without an answer. */
  lemma RstCloses(c: Conn, p: Packet, now: int, sendOk: bool, ok: bool)
    requires Handled(c, p) && !Refused(c, p) && p.rst
    ensures var d := HandlePacket(c, p, now, sendOk, ok);
            && d.t.state == Closing && Silent(c, d) && d.log == c.log
            && d.t.remoteSeq == c.t.remoteSeq && d.t.acked == c.t.acked
  {
    Routed(c, p, now, sendOk, ok);
    TakenInFields(c, p, now);
    hide TakenIn, Pow2, Mod32;
  }

  /** A repeated SYN, and a packet without flags, are data at most. */
  lemma SynOrNoFlags(c: Conn, p: Packet, now: int, sendOk: bool, ok: bool)
    requires Handled(c, p) && !Refused(c, p) && !p.rst && Level(c, p) && (p.syn || (!p.fin && !p.ack))
    ensures NothingSaid(c, HandlePacket(c, p, now, sendOk, ok))
  {
    Routed(c, p, now, sendOk, ok);
    TakenInFields(c, p, now);
    hide TakenIn, Pow2, Mod32;
  }

  /**
    The app's FIN in ESTABLISHED leads to CLOSE_WAIT. With nothing left to forward
    it is counted and acknowledged at once; behind queued data it waits.
  */
  lemma FinInEstablished(c: Conn, p: Packet, now: int, sendOk: bool, ok: bool)
    requires Handled(c, p) && !Refused(c, p) && !p.rst && !p.syn && p.fin && Level(c, p) && c.t.state == Established
    ensures var d := HandlePacket(c, p, now, sendOk, ok);
            d.t.acked == c.t.acked
            && if d.t.forward == [] then
                 && d.t.state == (if ok then CloseWait else Closing)
                 && d.t.remoteSeq == Mod32(c.t.remoteSeq + 1)
                 && Told(c, d, AckPacket(c, Mod32(c.t.remoteSeq + 1)), ok)
                 && d.log == c.log.(tun := d.log.tun, remoteFin := c.log.remoteFin + 1)
               else d.t.state == CloseWait && d.t.remoteSeq == c.t.remoteSeq && d.log == c.log
  {
    Routed(c, p, now, sendOk, ok);
    TakenInFields(c, p, now);
    FlagsKeepFields(TakenIn(c, p, now), p, ok);
    hide TakenIn, Pow2, Mod32;
  }

  /** After the upstream's own FIN, the app's FIN is counted and acknowledged, and the session is over. */
  lemma FinInFinWait(c: Conn, p: Packet, now: int, sendOk: bool, ok: bool)
    requires Handled(c, p) && !Refused(c, p) && !p.rst && !p.syn && p.fin && Level(c, p) && c.t.state == FinWait1
    ensures var d := HandlePacket(c, p, now, sendOk, ok);
            && d.t.state == (if ok then Close else Closing)
            && d.t.remoteSeq == Mod32(c.t.remoteSeq + 1) && d.t.acked == c.t.acked
            && Told(c, d, AckPacket(c, Mod32(c.t.remoteSeq + 1)), ok)
            && d.log == c.log.(tun := d.log.tun, remoteFin := c.log.remoteFin + 1)
  {
    Routed(c, p, now, sendOk, ok);
    TakenInFields(c, p, now);
    hide TakenIn, Pow2, Mod32;
  }

  /** In every other state a FIN is a repetition, or invalid, and changes nothing. */
  lemma OtherFinIgnored(c: Conn, p: Packet, now: int, sendOk: bool, ok: bool)
    requires Handled(c, p) && !Refused(c, p) && !p.rst && !p.syn && p.fin && Level(c, p)
    requires c.t.state != FinWait1 && c.t.state != Established
    ensures NothingSaid(c, HandlePacket(c, p, now, sendOk, ok))
  {
    Routed(c, p, now, sendOk, ok);
    TakenInFields(c, p, now);
    hide TakenIn, Pow2, Mod32;
  }

  /** An acknowledgement of all that was sent completes the handshake, or the close; nothing is sent for it. */
  lemma AckMovesState(c: Conn, p: Packet, now: int, sendOk: bool, ok: bool)
    requires Handled(c, p) && !Refused(c, p) && !p.rst && !p.syn && !p.fin && p.ack && p.ackno == c.t.localSeq
    ensures var d := HandlePacket(c, p, now, sendOk, ok);
            && d.t.acked == p.ackno && d.log == c.log && d.t.remoteSeq == c.t.remoteSeq
            && d.t.state == (match c.t.state
                             case SynRecv => Established
                             case LastAck => Closing
                             case s => s)
  {
    Routed(c, p, now, sendOk, ok);
    TakenInFields(c, p, now);
    hide TakenIn, Pow2, Mod32;
  }

  /**
    Any other acknowledgement: one byte less than everything is a keep-alive; one
    that compares beyond what was sent is answered with a reset; an older one moves
    acked if it compares beyond it.
  */
  lemma OtherAck(c: Conn, p: Packet, now: int, sendOk: bool, ok: bool)
    requires Handled(c, p) && !Refused(c, p) && !p.rst && p.ack && p.ackno != c.t.localSeq
    ensures var d := HandlePacket(c, p, now, sendOk, ok);
            if Mod32(p.ackno + 1) != c.t.localSeq && CompareU32(c.t.sub, p.ackno, c.t.localSeq) > 0 then
              && d.t.state == Closing && d.t.acked == c.t.acked && Told(c, d, ResetPacket(c), ok)
            else
              && d.t.state == c.t.state && d.log == c.log && d.t.remoteSeq == c.t.remoteSeq
              && d.t.acked == if Mod32(p.ackno + 1) != c.t.localSeq && CompareU32(c.t.sub, p.ackno, c.t.acked) > 0
                              then p.ackno else c.t.acked
  {
    Routed(c, p, now, sendOk, ok);
    TakenInFields(c, p, now);
    SameWord(c.t.sub, p.ackno, c.t.localSeq);
    hide TakenIn, Pow2, CompareU32;
  }
}
