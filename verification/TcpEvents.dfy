/**
  What socket events and timers do to a session, told in its fields: the answers
  to the SYN, to data and to the end of the stream, the acknowledgement of
  forwarded data and of a FIN that waited, keep-alives, and timeouts in seconds.
*/
module TcpEvents {
  import opened Words
  import opened TcpQueue
  import opened TcpModel
  import opened TcpAccounting
  import opened TcpPackets

  // ---------- connecting ----------

  /** The SYN is answered once the upstream socket is connected. */
  lemma SynAnswered(c: Conn, e: SocketEvent)
    requires AllSound(c.t.forward) && |e.sends| >= |c.t.forward| && c.t.state == Listen && !e.err && !e.readable
    ensures var d := SocketStep(c, e);
            && Told(c, d, Out(c.t.localSeq, Mod32(c.t.remoteSeq + 1), Announced(c), true, true, false, false, []),
                    e.tunOk)
            && d.t.remoteSeq == Mod32(c.t.remoteSeq + 1)
            && d.t.localSeq == (if e.tunOk then Mod32(c.t.localSeq + 1) else c.t.localSeq)
            && d.t.state == (if e.tunOk then SynRecv else Closing)
            && (e.tunOk ==> d.t.time == e.now) && d.t.socket == c.t.socket && d.t.forward == c.t.forward
  {
    hide Mod32, Shr;
  }

  /** From the SYN on: its numbers, its window and its data are those of the session that is opened. */
  lemma SynOpensSession(m: Subtraction, p: Packet, mss: u16, scale: nat, isn: u32, dest: u16, socket: int, now: int,
                        b: SendBuffer)
    requires |p.data| < 0x1_0000
    ensures var c := NewConn(m, p, mss, scale, isn, dest, socket, now, b);
            && c.t.state == Listen && c.t.time == now && c.t.socket == socket && c.t.dest == dest && c.t.mss == mss
            && c.t.remoteSeq == c.t.remoteStart == p.seqno && c.t.localSeq == c.t.localStart == isn
            && c.t.sendScale == c.t.recvScale == scale && c.t.sendWindow == Mod32(p.window * Pow2(scale))
            && c.t.recvWindow == GetReceiveWindow(c.t, b) && c.t.watchOut && !c.t.watchIn
            && (c.t.connectSent == Accepted <==> dest == HTTP_PORT) && c.t.connectSent != Requested
            && Payload0(c.t.forward) == p.data && (forall s | s in c.t.forward :: s.seqno == p.seqno && s.sent == 0)
            && Silent(c, c.(log := c.log.(tun := []))) && c.log.up == c.log.down == [] && c.log.closed == []
  {
    hide Pow2, Mod32;
  }

  /** The bytes a queue of at most one segment carries. */
  function Payload0(q: seq<Segment>): seq<u8> {
    if |q| == 1 && q[0].len <= |q[0].data| then q[0].data[..q[0].len] else []
  }

  /** On port 443 the first packet asks the proxy to connect, and what arrives meanwhile is queued. */
  lemma ConnectRequested(c: Conn, p: Packet, now: int, sendOk: bool, ok: bool)
    requires |p.data| < 0x1_0000 && !p.urg && c.t.dest == TLS_PORT && c.t.connectSent != Accepted
    ensures var d := HandlePacket(c, p, now, sendOk, ok);
            if c.t.connectSent == Requested then
              d == c.(t := c.t.(forward := d.t.forward))
            else if sendOk then
              d == c.(t := c.t.(forward := d.t.forward, connectSent := Requested, state := Listen))
            else
              && d.t.connectSent == NotSent && d.t.state == (if c.t.state == Close then Close else Closing)
              && Told(c, d, ResetPacket(c), ok)
  {
    hide QueueTcp, Mod32, Shr;
  }

  /** The proxy's answer: a 200 within its first twelve bytes opens the session, anything else resets it. */
  lemma ConnectAnswered(c: Conn, e: SocketEvent)
    requires AllSound(c.t.forward) && |e.sends| >= |c.t.forward| && c.t.state == Listen && !e.err && e.readable
    ensures var d := SocketStep(c, e);
            if e.recv.Broken? || e.recv.WouldBlock?
               || (c.t.connectSent == Requested
                   && !(e.recv.Bytes? && |e.recv.data| >= 12 && Accepts(e.recv.data[..12])))
            then d.t.state == Closing && d.t.connectSent == c.t.connectSent && Told(c, d, ResetPacket(c), e.tunOk)
            else if c.t.connectSent == Requested then d == c.(t := c.t.(connectSent := Accepted, state := SynRecv))
            else d == c
  {
    hide Mod32, Shr, Accepts;
    if e.recv.Bytes? {
      var reply := e.recv.data[..Min(|e.recv.data|, 12)];
      if |e.recv.data| < 12 {
        ShortReply(reply);
      } else {
        assert reply == e.recv.data[..12];
      }
    }
    ShortReply([]);
  }

  lemma ShortReply(data: seq<u8>)
    requires |data| < 12
    ensures !Accepts(data)
  {}

  /** "HTTP/1.0 200" and "HTTP/1.1 200", and nothing else. */
  lemma AcceptedReplies(reply: seq<u8>)
    ensures Accepts(reply) <==>
            |reply| == 12 && (reply[7] == '0' as u8 || reply[7] == '1' as u8)
            && forall i | 0 <= i < 12 && i != 7 :: reply[i] == "HTTP/1.0 200"[i] as u8
  {
    var s := "HTTP/1.0 200";
    assert s[0] == 'H' && s[1] == 'T' && s[2] == 'T' && s[3] == 'P' && s[4] == '/' && s[5] == '1';
    assert s[6] == '.' && s[8] == ' ' && s[9] == '2' && s[10] == '0' && s[11] == '0';
  }

  /** A socket error resets the session. */
  lemma ErrorResets(c: Conn, e: SocketEvent)
    requires AllSound(c.t.forward) && |e.sends| >= |c.t.forward| && e.err && c.t.state != Close
    ensures var d := SocketStep(c, e);
            && d.t.state == Closing && Told(c, d, ResetPacket(c), e.rstOk) && d.t.time == e.now
            && d.t.forward == c.t.forward && d.t.localSeq == c.t.localSeq && d.log.closed == c.log.closed
  {
    hide Mod32, Shr;
  }

  // ---------- forwarding ----------

  /** The socket took the whole payload, or failed, which counts as if it had. */
  predicate TakesAll(s: SendStep) {
    s.result.Failed? || (s.result.n >= 0x1_0000 && s.patched.None?)
  }

  /** As long as whole segments leave, the loop goes on: it stops where the guard fails. */
  lemma {:induction false} DrainsWhileTaken(c: Conn, buffer: int, sends: seq<SendStep>)
    requires AllSound(c.t.forward) && |sends| >= |c.t.forward|
    requires forall s | s in sends :: TakesAll(s)
    ensures var d := Forward(c, buffer, sends).0;
            !CanForward(d.t, buffer - (d.log.advanced - c.log.advanced))
    decreases |c.t.forward|
  {
    hide SendOnce, AllSound;
    ForwardUnfolds(c, buffer, sends);
    if !CanForward(c.t, buffer) {
    } else {
      var d := SendOnce(c, sends[0]);
      WholeHeadLeaves(c, sends[0]);
      assert forall s | s in sends[1..] :: s in sends;
      DrainsWhileTaken(d, buffer - (d.log.advanced - c.log.advanced), sends[1..]);
    }
  }

  lemma WholeHeadLeaves(c: Conn, s: SendStep)
    requires c.t.forward != [] && Sound(c.t.forward[0]) && TakesAll(s)
    ensures SendOnce(c, s).t.forward == c.t.forward[1..]
  {
    hide Mod32;
  }

  /** A request to port 80 leaves as patched; what counts is at most the rest of the head. */
  lemma PatchedRequestLeaves(c: Conn, s: SendStep)
    requires c.t.forward != [] && Sound(c.t.forward[0]) && s.result.Taken?
    ensures var d := SendOnce(c, s);
            var h := c.t.forward[0];
            var out := if c.t.dest == HTTP_PORT && s.patched.Some? then s.patched.value else h.data[h.sent..h.len];
            var n := Min(s.result.n, |out|);
            d.log.up == c.log.up + out[..n] && d.log.advanced == c.log.advanced + Min(n, h.len - h.sent)
  {
    hide Mod32;
  }

  /**
    After the forward loop the app learns of it: an acknowledgement goes out if
    anything was sent or a shut window opened, and it covers a FIN that waited for
    the queue.
  */
  lemma ForwardingIsAcknowledged(c: Conn, fwd: bool, after: SendBuffer, ok: bool, now: int)
    ensures var d := Acknowledge(c, fwd, after, ok, now);
            var fin := fwd && c.t.forward == [] && c.t.state == CloseWait;
            var number := if fin then Mod32(c.t.remoteSeq + 1) else c.t.remoteSeq;
            && d.t.recvWindow == GetReceiveWindow(c.t, after)
            && d.t.remoteSeq == number && d.log.remoteFin == c.log.remoteFin + (if fin then 1 else 0)
            && d.t.forward == c.t.forward && d.t.localSeq == c.t.localSeq && d.t.socket == c.t.socket
            && (if fwd || (c.t.recvWindow == 0 && d.t.recvWindow > 0)
                then Told(c, d, AckPacket(d, number), ok) && d.t.state == (if ok then c.t.state else Closing)
                     && d.t.time == (if ok then now else c.t.time)
                else Silent(c, d) && d.t.state == c.t.state && d.t.time == c.t.time)
  {
    hide GetReceiveWindow, Mod32, Shr;
  }

  // ---------- reading ----------

  /** Only an open session with an open window reads. */
  lemma ReadsWhenOpen(c: Conn, readable: bool, recv: RecvResult, ok: bool, now: int)
    ensures !IsOpen(c.t) || !readable || GetSendWindow(c.t) == 0 ==> ReadSocket(c, readable, recv, ok, now) == c
    ensures IsOpen(c.t) && readable && GetSendWindow(c.t) > 0 && recv.WouldBlock? ==>
              ReadSocket(c, readable, recv, ok, now) == c.(t := c.t.(time := now))
    ensures ReadSize(c.t) == if GetSendWindow(c.t) > c.t.mss then c.t.mss else GetSendWindow(c.t)
  {
    hide GetSendWindow, WriteRst, ReadEof, ReadData;
  }

  predicate Reads(c: Conn, readable: bool) {
    IsOpen(c.t) && readable && GetSendWindow(c.t) > 0
  }

  /** What was read goes to the app as the next bytes; a failed write closes the session. */
  lemma DataIsRelayed(c: Conn, data: seq<u8>, ok: bool, now: int)
    requires Reads(c, true) && data != []
    ensures var d := ReadSocket(c, true, Bytes(data), ok, now);
            && Told(c, d, Out(c.t.localSeq, c.t.remoteSeq, Announced(c), false, true, false, false, data), ok)
            && d.log.down == (if ok then c.log.down + data else c.log.down)
            && d.t.localSeq == (if ok then Mod32(c.t.localSeq + |data|) else c.t.localSeq)
            && d.t.state == (if ok then c.t.state else Closing) && d.t.time == now
            && d.t.acked == c.t.acked && d.t.forward == c.t.forward && d.t.socket == c.t.socket
  {
    hide GetSendWindow, Mod32, Shr;
  }

  /** The end of the upstream's bytes: a FIN to the app, or a reset while bytes of the app are queued. */
  lemma EndIsRelayed(c: Conn, recv: RecvResult, ok: bool, now: int)
    requires Reads(c, true) && c.t.socket >= 0 && (recv.Eof? || recv == Bytes([]))
    ensures var d := ReadSocket(c, true, recv, ok, now);
            && d.t.socket == -1 && d.log.closed == c.log.closed + [c.t.socket] && d.log.down == c.log.down
            && if c.t.forward == [] then
                 && Told(c, d, Out(c.t.localSeq, c.t.remoteSeq, Announced(c), false, true, true, false, []), ok)
                 && d.t.localSeq == (if ok then Mod32(c.t.localSeq + 1) else c.t.localSeq)
                 && d.log.localFin == c.log.localFin + (if ok then 1 else 0)
                 && d.t.state == (if !ok then Closing else if c.t.state == Established then FinWait1 else LastAck)
               else
                 && Told(c, d, ResetPacket(c), ok) && d.t.state == Closing && d.t.localSeq == c.t.localSeq
  {
    hide GetSendWindow, Mod32, Shr;
  }

  /** Any other failure of recv() resets the session. */
  lemma BrokenReadResets(c: Conn, ok: bool, now: int)
    requires Reads(c, true)
    ensures var d := ReadSocket(c, true, Broken, ok, now);
            && d.t.state == Closing && Told(c, d, ResetPacket(c), ok) && d.t.socket == c.t.socket
            && d.t.localSeq == c.t.localSeq
  {
    hide GetSendWindow, Mod32, Shr;
  }

  // ---------- waiting ----------

  /**
    With its window shut a session reminds the app of itself, at most once in a
    tenth of a second, by acknowledging one byte less.
  */
  lemma KeepsAlive(c: Conn, b: SendBuffer, ms: int, ok: bool)
    ensures var d := Monitor(c, b, ms, ok, true);
            var due := IsOpen(c.t) && GetSendWindow(c.t) == 0 && ms - c.t.lastKeepAlive > 100;
            && (if due then Told(c, d, AckPacket(c, Mod32(c.t.remoteSeq - 1)), ok) else Silent(c, d))
            && d.t.lastKeepAlive == (if due then ms else c.t.lastKeepAlive)
            && d.t.remoteSeq == c.t.remoteSeq && d.t.localSeq == c.t.localSeq && d.t.forward == c.t.forward
            && d.t.state == (if due && !ok then Closing else c.t.state)
  {
    ModAdd(c.t.remoteSeq - 1, 1);
    assert Mod32(c.t.remoteSeq) == c.t.remoteSeq;
    hide GetSendWindow, CanForward, GetReceiveBuffer, Mod32, Shr;
  }

  /** What a session waits for, by its state; epoll refusing a change closes it. */
  lemma WaitsFor(c: Conn, b: SendBuffer, ms: int, ctlOk: bool)
    ensures var d := Monitor(c, b, ms, true, ctlOk);
            var asks := c.t.connectSent == Requested && c.t.dest == TLS_PORT;
            && d.t.watchIn == (match c.t.state
                               case Listen => asks
                               case Established => GetSendWindow(c.t) > 0
                               case CloseWait => GetSendWindow(c.t) > 0
                               case _ => false)
            && d.t.watchOut == (match c.t.state
                                case Listen => !asks
                                case Established => CanForward(c.t, GetReceiveBuffer(c.t.socket, b))
                                case CloseWait => CanForward(c.t, GetReceiveBuffer(c.t.socket, b))
                                case _ => false)
            && d.t.state == (if ctlOk || (d.t.watchIn == c.t.watchIn && d.t.watchOut == c.t.watchOut)
                             then c.t.state else Closing)
  {
    hide GetSendWindow, CanForward, GetReceiveBuffer, Build, Mod32;
  }

  // ---------- timeouts ----------

  /** Seconds without load. */
  function IdleSeconds(s: State): nat {
    match s
    case Listen => 30
    case SynRecv => 30
    case Established => 3600
    case _ => 30
  }

  /** Load shortens a timeout by whole percents, rounded down; the result is rounded down to seconds. */
  lemma ShortenedByLoad(base: nat, n: nat, maxSessions: nat, percent: nat)
    requires 0 < maxSessions && n <= maxSessions
    requires percent * maxSessions <= n * 100 < (percent + 1) * maxSessions
    ensures var t := Scaled(base, n, maxSessions); 100 * t <= base * (100 - percent) < 100 * t + 100
  {
    Quotient(n * 100, maxSessions, percent);
    Below(percent, 101, maxSessions);
    Product(base, 100 - percent);
  }

  /** Beyond the maximum load a session is out of time at once: its timeout is negative, rounded toward zero. */
  lemma OverloadedTimeout(base: nat, n: nat, maxSessions: nat, percent: nat)
    requires 0 < maxSessions < n && percent * maxSessions <= n * 100 < (percent + 1) * maxSessions
    ensures var t := Scaled(base, n, maxSessions); 100 * -t <= base * (percent - 100) < 100 * -t + 100
    ensures Scaled(base, n, maxSessions) <= 0
  {
    Quotient(n * 100, maxSessions, percent);
    Below(100, percent + 1, maxSessions);
    Product(base, percent - 100);
    assert base * (100 - percent) == -(base * (percent - 100));
  }

  lemma Product(a: nat, b: nat)
    ensures a * b >= 0
  {}

  lemma NotShortened(base: nat, maxSessions: nat)
    requires 0 < maxSessions
    ensures Scaled(base, 0, maxSessions) == base
  {
    Quotient(0 * 100, maxSessions, 0);
  }

  /** The timeouts in seconds, without load and with it. */
  lemma TimeoutInSeconds(s: State, n: nat, maxSessions: nat, percent: nat)
    requires 0 < maxSessions && n <= maxSessions
    requires percent * maxSessions <= n * 100 < (percent + 1) * maxSessions
    ensures var t := GetTcpTimeout(s, n, maxSessions);
            100 * t <= IdleSeconds(s) * (100 - percent) < 100 * t + 100
    ensures GetTcpTimeout(s, 0, maxSessions) == IdleSeconds(s)
  {
    ShortenedByLoad(IdleSeconds(s), n, maxSessions, percent);
    NotShortened(IdleSeconds(s), maxSessions);
    hide Scaled;
  }

  lemma Quotient(a: nat, m: nat, q: nat)
    requires m > 0 && q * m <= a < (q + 1) * m
    ensures a / m == q
  {
    var r := a / m;
    assert r * m <= a < (r + 1) * m;
    Below(r, q + 1, m);
    Below(q, r + 1, m);
  }

  lemma Below(a: nat, b: nat, m: nat)
    requires a * m < b * m
    ensures a < b
  {
    if b <= a {
      Scales(b, a, m);
      assert false;
    }
  }

  lemma Scales(a: nat, b: nat, m: nat)
    requires a <= b
    ensures a * m <= b * m
  {
  }

  /** What is left of a session that was not used for longer than its timeout. */
  lemma IdleSessionCloses(c: Conn, now: int, sessions: int, maxSessions: int, ok: bool)
    requires maxSessions > 0 && c.t.state != Closing && c.t.state != Close
    ensures var (d, del) := CheckSession(c, now, sessions, maxSessions, ok);
            if now > c.t.time + GetTcpTimeout(c.t.state, sessions, maxSessions) then
              && d.t.state == Close && d.t.socket < 0 && d.t.time == now && !del
              && d.log.closed == (if c.t.socket >= 0 then c.log.closed + [c.t.socket] else c.log.closed)
              && (if c.t.state == Listen then Silent(c, d) else Told(c, d, ResetPacket(c), ok))
            else d == c && !del
  {
    hide GetTcpTimeout, Mod32, Shr;
  }

  /** A closed session lingers for 300 seconds. */
  lemma ClosedSessionLingers(c: Conn, now: int, sessions: int, maxSessions: int, ok: bool)
    requires maxSessions > 0 && c.t.state == Close
    ensures CheckSession(c, now, sessions, maxSessions, ok) == (c, now > c.t.time + 300)
  {
    hide GetTcpTimeout;
  }

  // ---------- every FIN is acknowledged ----------

  /** What the app was told stays told. */
  predicate StillTold(c: Conn, d: Conn) {
    c.log.tun <= d.log.tun
  }

  /** The app's FIN was counted, and while the session is not being closed it was acknowledged. */
  ghost predicate FinAnswered(c: Conn) {
    c.log.remoteFin > 0 && (c.t.state == CloseWait || c.t.state == LastAck) ==>
      exists o :: o in c.log.tun && o.ack && o.ackno == c.t.remoteSeq
  }

  lemma AnsweredStill(c: Conn, d: Conn)
    requires FinAnswered(c) && StillTold(c, d) && c.log.remoteFin > 0 && d.t.remoteSeq == c.t.remoteSeq
    requires d.t.state == CloseWait || d.t.state == LastAck ==> c.t.state == CloseWait || c.t.state == LastAck
    ensures FinAnswered(d)
  {
    if d.t.state == CloseWait || d.t.state == LastAck {
      var o :| o in c.log.tun && o.ack && o.ackno == c.t.remoteSeq;
      var i :| 0 <= i < |c.log.tun| && c.log.tun[i] == o;
      assert d.log.tun[i] == o;
    }
  }

  lemma RstTold(c: Conn, ok: bool)
    ensures var d := WriteRst(c, ok);
            StillTold(c, d) && !IsOpen(d.t) && d.t.state != LastAck && d.log.remoteFin == c.log.remoteFin
  {
    hide Build, Mod32;
  }

  lemma PacketAnswers(c: Conn, p: Packet, now: int, sendOk: bool, ok: bool)
    requires Inv(c) && c.t.dest != TLS_PORT && |p.data| < 0x1_0000 && (sendOk ==> c.t.socket >= 0) && FinAnswered(c)
    ensures FinAnswered(HandlePacket(c, p, now, sendOk, ok))
  {
    var d := HandlePacket(c, p, now, sendOk, ok);
    hide HandlePacket, Inv, FinAnswered, Mod32;
    if p.urg {
      UrgentIgnored(c, p, now, sendOk, ok);
    } else if c.t.state == Closing || c.t.state == Close {
      ClosedAnswersReset(c, p, now, sendOk, ok);
      NotWaiting(d);
    } else if Refused(c, p) {
      RefusedDataResets(c, p, now, sendOk, ok);
      NotWaiting(d);
    } else {
      HandledAnswers(c, p, now, sendOk, ok);
    }
  }

  lemma NotWaiting(c: Conn)
    requires c.t.state != CloseWait && c.t.state != LastAck
    ensures FinAnswered(c)
  {}

  /** Nothing was counted and nothing said, or the state is elsewhere. */
  lemma SameAnswer(c: Conn, d: Conn)
    requires FinAnswered(c) && StillTold(c, d) && d.t.remoteSeq == c.t.remoteSeq && d.log.remoteFin == c.log.remoteFin
    requires d.t.state == CloseWait || d.t.state == LastAck ==>
               c.t.state == CloseWait || c.t.state == LastAck || c.log.remoteFin == 0
    ensures FinAnswered(d)
  {
    if c.log.remoteFin > 0 {
      AnsweredStill(c, d);
    }
  }

  lemma HandledAnswers(c: Conn, p: Packet, now: int, sendOk: bool, ok: bool)
    requires Inv(c) && c.t.dest != TLS_PORT && Handled(c, p) && !Refused(c, p) && FinAnswered(c)
    ensures FinAnswered(HandlePacket(c, p, now, sendOk, ok))
  {
    var d := HandlePacket(c, p, now, sendOk, ok);
    assert c.t.state == Established ==> c.log.remoteFin == 0;
    hide HandlePacket, Inv, FinAnswered, Mod32, CompareU32;
    if p.rst {
      RstCloses(c, p, now, sendOk, ok);
      NotWaiting(d);
    } else if p.ack && p.ackno != c.t.localSeq {
      OtherAck(c, p, now, sendOk, ok);
      if d.t.state == Closing {
        NotWaiting(d);
      } else {
        SameAnswer(c, d);
      }
    } else if p.syn || (!p.fin && !p.ack) {
      SynOrNoFlags(c, p, now, sendOk, ok);
      SameAnswer(c, d);
    } else if !p.fin {
      AckMovesState(c, p, now, sendOk, ok);
      SameAnswer(c, d);
    } else if c.t.state == FinWait1 {
      FinInFinWait(c, p, now, sendOk, ok);
      NotWaiting(d);
    } else if c.t.state == Established {
      FinInEstablished(c, p, now, sendOk, ok);
      EstablishedFinAnswered(c, d, ok);
    } else {
      OtherFinIgnored(c, p, now, sendOk, ok);
      SameAnswer(c, d);
    }
  }

  lemma EstablishedFinAnswered(c: Conn, d: Conn, ok: bool)
    requires c.log.remoteFin == 0
    requires if d.t.forward == [] then
               && d.t.state == (if ok then CloseWait else Closing) && d.t.remoteSeq == Mod32(c.t.remoteSeq + 1)
               && Told(c, d, AckPacket(c, Mod32(c.t.remoteSeq + 1)), ok)
             else d.log == c.log
    ensures FinAnswered(d)
  {
    if d.t.forward == [] && ok {
      var o := AckPacket(c, Mod32(c.t.remoteSeq + 1));
      assert d.log.tun[|c.log.tun|] == o;
    }
  }

  /** The forward loop and the acknowledgement after it: the FIN that waited is answered here. */
  lemma BeforeReadAnswers(c: Conn, e: SocketEvent)
    requires Inv(c) && c.t.dest != TLS_PORT && FinAnswered(c) && c.t.state != Listen && |e.sends| >= |c.t.forward|
    ensures FinAnswered(BeforeRead(c, e))
  {
    hide Forward, Acknowledge, GetReceiveWindow, Mod32, Accounted, FinAnswered, RemotePos, Announced;
    var buffer := GetReceiveBuffer(c.t.socket, e.before);
    ForwardCounts(c, buffer, e.sends);
    if c.log.remoteFin > 0 {
      DrainedIsCounted(c);
    }
    var f := if e.writable then Forward(c, buffer, e.sends) else (c, false);
    assert c.t.forward == [] ==> f == (c, false);
    ForwardingIsAcknowledged(f.0, f.1, e.after, e.ackOk, e.now);
    WaitedFinAnswered(c, f.0, BeforeRead(c, e), f.1, e.ackOk);
  }

  /** A counted FIN is behind everything. */
  lemma DrainedIsCounted(c: Conn)
    requires Inv(c) && c.t.dest != TLS_PORT && c.log.remoteFin > 0
    ensures c.t.forward == []
  {}

  /** After forwarding: a FIN counted just now was acknowledged with its own number. */
  lemma WaitedFinAnswered(c: Conn, f: Conn, d: Conn, fwd: bool, ok: bool)
    requires FinAnswered(c) && f.t.state == c.t.state && f.log.tun == c.log.tun && f.log.remoteFin == c.log.remoteFin
    requires c.log.remoteFin > 0 ==> f.t.remoteSeq == c.t.remoteSeq && !fwd
    requires var fin := fwd && f.t.forward == [] && f.t.state == CloseWait;
             && d.t.remoteSeq == (if fin then Mod32(f.t.remoteSeq + 1) else f.t.remoteSeq)
             && d.log.remoteFin == f.log.remoteFin + (if fin then 1 else 0)
             && (fwd ==> Told(f, d, AckPacket(d, d.t.remoteSeq), ok))
    requires StillTold(f, d) && (d.t.state == f.t.state || d.t.state == Closing)
    requires !ok && fwd ==> d.t.state == Closing
    ensures FinAnswered(d)
  {
    if d.log.remoteFin > 0 && (d.t.state == CloseWait || d.t.state == LastAck) {
      if c.log.remoteFin > 0 {
        AnsweredStill(c, d);
      } else {
        assert d.log.tun[|f.log.tun|] == AckPacket(d, d.t.remoteSeq);
      }
    }
  }

  /** Reading says more, and leaves what was counted for the app alone. */
  lemma ReadStillTold(c: Conn, readable: bool, recv: RecvResult, ok: bool, now: int)
    ensures var d := ReadSocket(c, readable, recv, ok, now);
            && StillTold(c, d) && d.t.remoteSeq == c.t.remoteSeq && d.log.remoteFin == c.log.remoteFin
            && (d.t.state == CloseWait ==> c.t.state == CloseWait)
            && (d.t.state == LastAck ==> c.t.state == CloseWait || c.t.state == LastAck)
  {
    hide GetSendWindow, Build, Mod32;
  }

  lemma SocketAnswers(c: Conn, e: SocketEvent)
    requires Inv(c) && c.t.dest != TLS_PORT && FinAnswered(c) && Enabled(c, Ready(e))
    ensures FinAnswered(SocketStep(c, e))
  {
    var d := SocketStep(c, e);
    if e.err || c.t.state == Listen {
      if e.err {
        RstTold(c.(t := c.t.(time := e.now)), e.rstOk);
      } else if e.readable {
        ConnectAnswered(c, e);
      } else {
        SynAnswered(c, e);
      }
      hide SocketStep, FinAnswered, Inv;
      NotWaiting(d);
    } else {
      hide BeforeRead, ReadSocket, FinAnswered, Inv;
      BeforeReadAnswers(c, e);
      var b := BeforeRead(c, e);
      ReadStillTold(b, e.readable, e.recv, e.tunOk, e.now);
      SameAnswer(b, d);
    }
  }

  lemma WatchStillTold(c: Conn, b: SendBuffer, ms: int, ok: bool, ctlOk: bool)
    ensures TimerTold(c, Monitor(c, b, ms, ok, ctlOk))
  {
    ModAdd(c.t.remoteSeq - 1, 1);
    assert Mod32(c.t.remoteSeq) == c.t.remoteSeq;
    hide GetSendWindow, CanForward, GetReceiveBuffer, Mod32, Build;
  }

  lemma CheckStillTold(c: Conn, now: int, sessions: int, maxSessions: int, ok: bool)
    requires maxSessions > 0
    ensures TimerTold(c, CheckSession(c, now, sessions, maxSessions, ok).0)
  {
    if c.t.state == Closing || c.t.state == Close {
    } else {
      IdleSessionCloses(c, now, sessions, maxSessions, ok);
      CheckKeepsNumbers(c, now, sessions, maxSessions, ok);
      hide CheckSession;
    }
  }

  lemma CheckKeepsNumbers(c: Conn, now: int, sessions: int, maxSessions: int, ok: bool)
    requires maxSessions > 0
    ensures var d := CheckSession(c, now, sessions, maxSessions, ok).0;
            d.log.remoteFin == c.log.remoteFin && (c.t.state != Listen ==> d.t.remoteSeq == c.t.remoteSeq)
  {
    hide GetTcpTimeout, Mod32, Build;
  }

  /** What a timer may do to what was said. */
  predicate TimerTold(c: Conn, d: Conn) {
    && StillTold(c, d) && d.log.remoteFin == c.log.remoteFin
    && (c.t.state != Listen ==> d.t.remoteSeq == c.t.remoteSeq)
    && (d.t.state == c.t.state || d.t.state == Closing || d.t.state == Close)
  }

  lemma StepAnswers(c: Conn, e: Event)
    requires Inv(c) && c.t.dest != TLS_PORT && FinAnswered(c) && Enabled(c, e)
    ensures FinAnswered(Step(c, e))
  {
    hide HandlePacket, SocketStep, FinAnswered;
    match e
    case Arrive(p, now, sendOk, ok) => PacketAnswers(c, p, now, sendOk, ok);
    case Ready(ev) => SocketAnswers(c, ev);
    case _ => TimersAnswer(c, e);
  }

  lemma TimersAnswer(c: Conn, e: Event)
    requires AllSound(c.t.forward) && Enabled(c, e) && (e.Watch? || e.Tick?) && FinAnswered(c)
    ensures FinAnswered(Step(c, e))
  {
    hide Monitor, CheckSession, FinAnswered;
    match e {
      case Watch(b, ms, ok, ctlOk) => WatchStillTold(c, b, ms, ok, ctlOk);
      case Tick(now, sessions, maxSessions, ok) => CheckStillTold(c, now, sessions, maxSessions, ok);
    }
    var d := Step(c, e);
    if d.t.state == CloseWait || d.t.state == LastAck {
      SameAnswer(c, d);
    } else {
      NotWaiting(d);
    }
  }

  lemma {:induction false} RunAnswers(c: Conn, es: seq<Event>)
    requires Inv(c) && c.t.dest != TLS_PORT && FinAnswered(c) && Legal(c, es)
    ensures FinAnswered(Run(c, es))
    decreases |es|
  {
    if es == [] {
    } else {
      StepKeeps(c, es[0]);
      StepAnswers(c, es[0]);
      hide Step, Inv, FinAnswered;
      RunAnswers(Step(c, es[0]), es[1..]);
    }
  }

  /**
    Over every run from the SYN on: once the app's FIN is in and everything before
    it was forwarded, the FIN was counted and the app was sent an acknowledgement
    of it, whether it arrived before or after the queue drained.
  */
  lemma FinAcknowledged(m: Subtraction, p: Packet, mss: u16, scale: nat, isn: u32, dest: u16, socket: int, now: int,
                        b: SendBuffer, es: seq<Event>)
    requires |p.data| < 0x1_0000 && socket >= 0 && dest != TLS_PORT
    requires Legal(NewConn(m, p, mss, scale, isn, dest, socket, now, b), es)
    ensures var c := Run(NewConn(m, p, mss, scale, isn, dest, socket, now, b), es);
            (c.t.state == CloseWait && c.t.forward == []) || c.t.state == LastAck ==>
              && c.log.remoteFin == 1
              && exists o :: o in c.log.tun && o.ack && o.ackno == c.t.remoteSeq
  {
    var c := NewConn(m, p, mss, scale, isn, dest, socket, now, b);
    NewSessionInv(m, p, mss, scale, isn, dest, socket, now, b);
    NotWaiting(c);
    RunAnswers(c, es);
    RunKeeps(c, es);
    var d := Run(c, es);
    hide NewConn, Run, Legal, Mod32;
    assert Accounted(d);
  }
}
