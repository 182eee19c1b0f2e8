/**
  What every step of a TCP session keeps: who owns the socket, how the two
  sequence numbers are made up, and how far the connection has come.
*/
module TcpAccounting {
  import opened Words
  import opened TcpQueue
  import opened TcpModel

  // ---------- the invariant ----------

  /** States that the session can only be in after the socket was closed. */
  predicate SocketGone(s: State) {
    s == FinWait1 || s == LastAck || s == Close
  }

  ghost predicate SocketInv(c: Conn) {
    && AllSound(c.t.forward)
    && c.t.socket >= -1
    && (SocketGone(c.t.state) ==> c.t.socket == -1)
  }

  /** The unbounded position that remote_seq stands for: SYN, forwarded bytes, FIN. */
  function RemotePos(c: Conn): int {
    c.t.remoteStart + c.log.remoteSyn + c.log.advanced + c.log.remoteFin
  }

  /** The unbounded position that local_seq stands for: SYN, relayed bytes, FIN. */
  function LocalPos(c: Conn): int {
    c.t.localStart + c.log.localSyn + |c.log.down| + c.log.localFin
  }

  /** Which of the four SYN and FIN events have been counted, state by state. */
  predicate Counted(c: Conn) {
    var l := c.log;
    && l.remoteSyn <= 1 && l.remoteFin <= 1 && l.localSyn <= 1 && l.localFin <= 1
    && (l.remoteFin == 1 ==> c.t.forward == [])
    && match c.t.state
       case Listen =>
         l.remoteSyn == 0 && l.remoteFin == 0 && l.localSyn == 0 && l.localFin == 0 && l.advanced == 0 && l.down == []
       case SynRecv => l.remoteSyn == 1 && l.remoteFin == 0 && l.localSyn == 1 && l.localFin == 0
       case Established => l.remoteSyn == 1 && l.remoteFin == 0 && l.localSyn == 1 && l.localFin == 0
       case CloseWait =>
         l.remoteSyn == 1 && l.localSyn == 1 && l.localFin == 0 && (l.remoteFin == 1 <==> c.t.forward == [])
       case FinWait1 => l.remoteSyn == 1 && l.remoteFin == 0 && l.localSyn == 1 && l.localFin == 1 && c.t.forward == []
       case LastAck => l.remoteSyn == 1 && l.remoteFin == 1 && l.localSyn == 1 && l.localFin == 1
       case Closing => true
       case Close => true
  }

  /** The accounting invariant of a session outside port 443. */
  predicate Accounted(c: Conn) {
    && c.t.remoteSeq == Mod32(RemotePos(c))
    && c.t.localSeq == Mod32(LocalPos(c))
    && Counted(c)
    && c.t.connectSent != Requested
  }

  ghost predicate Inv(c: Conn) {
    SocketInv(c) && (c.t.dest != TLS_PORT ==> Accounted(c))
  }

  function Rank(s: State): nat {
    match s
    case Listen => 0
    case SynRecv => 1
    case Established => 2
    case CloseWait => 3
    case FinWait1 => 3
    case LastAck => 4
    case Closing => 5
    case Close => 6
  }

  /** A step keeps the socket and closes nothing, or closes exactly the socket it had. */
  predicate ClosesOwnSocket(c: Conn, d: Conn) {
    || (d.t.socket == c.t.socket && d.log.closed == c.log.closed)
    || (c.t.socket >= 0 && d.t.socket == -1 && d.log.closed == c.log.closed + [c.t.socket])
  }

  /** What a step may do to the connection as a whole. */
  predicate Progress(c: Conn, d: Conn) {
    && ClosesOwnSocket(c, d)
    && d.t.dest == c.t.dest && d.t.remoteStart == c.t.remoteStart && d.t.localStart == c.t.localStart
    && d.t.sendScale == c.t.sendScale && d.t.recvScale == c.t.recvScale && d.t.sub == c.t.sub && d.t.mss == c.t.mss
    && (c.t.dest != TLS_PORT ==> Rank(c.t.state) <= Rank(d.t.state))
  }

  /** As Progress, and the socket stays. */
  predicate ProgressOpen(c: Conn, d: Conn) {
    Progress(c, d) && d.t.socket == c.t.socket && d.log.closed == c.log.closed
  }

  // ---------- one lemma for each handler ----------

  lemma WriteRstKeeps(c: Conn, ok: bool)
    requires Inv(c)
    ensures Inv(WriteRst(c, ok)) && ProgressOpen(c, WriteRst(c, ok))
  {
    ModAdd(RemotePos(c), 1);
    hide Build, Mod32, AllSound;
  }

  lemma QueueKeeps(c: Conn, p: Packet)
    requires Inv(c) && |p.data| < 0x1_0000
    requires c.t.dest != TLS_PORT ==> c.log.remoteFin == 0 && c.t.state != CloseWait && c.t.state != FinWait1
    ensures Inv(Queue(c, p)) && ProgressOpen(c, Queue(c, p))
  {
    var q := c.t.forward;
    var i := Scan(c.t.sub, q, p.seqno);
    var r := QueueTcp(c.t.sub, q, c.t.remoteSeq, p.seqno, p.psh, p.data);
    forall s | s in r ensures Sound(s) {
      if s !in q && i < |q| && CompareU32(c.t.sub, q[i].seqno, p.seqno) <= 0 {
        assert Sound(q[i]);
      }
    }
  }

  lemma HandleCurrentKeeps(c: Conn, p: Packet, ok: bool)
    requires Inv(c)
    ensures Inv(HandleCurrent(c, p, ok)) && ProgressOpen(c, HandleCurrent(c, p, ok))
  {
    hide AllSound, Build, Mod32;
    ModAdd(RemotePos(c), 1);
  }

  lemma HandleOtherAckKeeps(c: Conn, p: Packet, ok: bool)
    requires Inv(c)
    ensures Inv(HandleOtherAck(c, p, ok)) && ProgressOpen(c, HandleOtherAck(c, p, ok))
  {
    WriteRstKeeps(c, ok);
  }

  lemma RequestConnectKeeps(c: Conn, sendOk: bool, ok: bool)
    requires Inv(c) && (sendOk ==> c.t.socket >= 0)
    ensures Inv(RequestConnect(c, sendOk, ok)) && ProgressOpen(c, RequestConnect(c, sendOk, ok))
    ensures c.t.dest != TLS_PORT ==> RequestConnect(c, sendOk, ok) == c
  {
    WriteRstKeeps(c, ok);
  }

  lemma HandleFlagsKeeps(c: Conn, p: Packet, ok: bool)
    requires Inv(c) && c.t.state != Close
    ensures Inv(HandleFlags(c, p, ok)) && ProgressOpen(c, HandleFlags(c, p, ok))
  {
    hide HandleCurrent, HandleOtherAck, AllSound;
    HandleCurrentKeeps(c, p, ok);
    HandleOtherAckKeeps(c, p, ok);
  }

  lemma HandleOpenKeeps(c: Conn, p: Packet, ok: bool)
    requires Inv(c) && |p.data| < 0x1_0000 && c.t.state != Closing && c.t.state != Close
    ensures Inv(HandleOpen(c, p, ok)) && ProgressOpen(c, HandleOpen(c, p, ok))
  {
    if p.data != [] && (c.t.socket < 0 || c.t.state == CloseWait) {
      WriteRstKeeps(c, ok);
    } else if p.data != [] {
      QueueKeeps(c, p);
      HandleFlagsKeeps(Queue(c, p), p, ok);
    } else {
      HandleFlagsKeeps(c, p, ok);
    }
  }

  lemma HandleKnownKeeps(c: Conn, p: Packet, now: int, ok: bool)
    requires Inv(c) && |p.data| < 0x1_0000
    ensures Inv(HandleKnown(c, p, now, ok)) && ProgressOpen(c, HandleKnown(c, p, now, ok))
  {
    if c.t.dest == TLS_PORT && c.t.connectSent != Accepted {
      QueueKeeps(c, p);
    } else if c.t.state == Closing || c.t.state == Close {
      WriteRstKeeps(c, ok);
    } else {
      var c1 := Stamp(c, p, now);
      assert Inv(c1) && ProgressOpen(c, c1);
      HandleOpenKeeps(c1, p, ok);
    }
  }

  lemma ArriveKeeps(c: Conn, p: Packet, now: int, sendOk: bool, ok: bool)
    requires Inv(c) && |p.data| < 0x1_0000 && (sendOk ==> c.t.socket >= 0)
    ensures Inv(HandlePacket(c, p, now, sendOk, ok)) && ProgressOpen(c, HandlePacket(c, p, now, sendOk, ok))
  {
    RequestConnectKeeps(c, sendOk, ok);
    HandleKnownKeeps(RequestConnect(c, sendOk, ok), p, now, ok);
  }

  /** One send advances remote_seq by exactly what it counts, and touches nothing else. */
  lemma SendCounts(c: Conn, buffer: int, s: SendStep)
    requires AllSound(c.t.forward) && CanForward(c.t, buffer)
    ensures var d := SendOnce(c, s);
            && AllSound(d.t.forward)
            && d.t == c.t.(forward := d.t.forward, remoteSeq := d.t.remoteSeq)
            && d.log == c.log.(up := d.log.up, advanced := d.log.advanced, lost := d.log.lost)
            && (c.t.remoteSeq == Mod32(RemotePos(c)) ==> d.t.remoteSeq == Mod32(RemotePos(d)))
  {
    var h := c.t.forward[0];
    assert Sound(h);
    var n := SendOnce(c, s).log.advanced - c.log.advanced;
    ModAdd(h.seqno + h.sent, n);
    ModAdd(RemotePos(c), n);
  }

  /** One round of the forward loop. */
  lemma ForwardUnfolds(c: Conn, buffer: int, sends: seq<SendStep>)
    requires AllSound(c.t.forward) && |sends| >= |c.t.forward|
    ensures !CanForward(c.t, buffer) ==> Forward(c, buffer, sends) == (c, false)
    ensures CanForward(c.t, buffer) ==>
              && Sound(c.t.forward[0])
              && var d := SendOnce(c, sends[0]);
                 && AllSound(d.t.forward) && |d.t.forward| <= |c.t.forward|
                 && Forward(c, buffer, sends) ==
                    if |d.t.forward| == |c.t.forward| then (d, true)
                    else (Forward(d, buffer - (d.log.advanced - c.log.advanced), sends[1..]).0, true)
  {
    if CanForward(c.t, buffer) {
      assert Sound(c.t.forward[0]);
      SendCounts(c, buffer, sends[0]);
    }
  }

  /** The forward loop advances remote_seq by exactly what it counts as sent, and touches nothing else. */
  lemma {:induction false} ForwardCounts(c: Conn, buffer: int, sends: seq<SendStep>)
    requires AllSound(c.t.forward) && |sends| >= |c.t.forward|
    ensures var d := Forward(c, buffer, sends).0;
            && AllSound(d.t.forward)
            && d.t == c.t.(forward := d.t.forward, remoteSeq := d.t.remoteSeq)
            && d.log == c.log.(up := d.log.up, advanced := d.log.advanced, lost := d.log.lost)
            && (c.t.remoteSeq == Mod32(RemotePos(c)) ==> d.t.remoteSeq == Mod32(RemotePos(d)))
            && (c.t.forward == [] ==> d == c)
            && (Forward(c, buffer, sends).1 <==> CanForward(c.t, buffer))
    decreases |c.t.forward|
  {
    if !CanForward(c.t, buffer) {
    } else {
      var c1 := SendOnce(c, sends[0]);
      SendCounts(c, buffer, sends[0]);
      if |c1.t.forward| < |c.t.forward| {
        ForwardCounts(c1, buffer - (c1.log.advanced - c.log.advanced), sends[1..]);
      }
    }
  }

  /** Between the loop and the acknowledgement, a drained CLOSE_WAIT session still owes the FIN its number. */
  ghost predicate Drained(c: Conn, fwd: bool) {
    && SocketInv(c) && c.t.socket >= 0 && c.t.state != Listen
    && (c.t.dest != TLS_PORT ==>
          && Accounted(if fwd && c.t.forward == [] && c.t.state == CloseWait then CountRemoteFin(c) else c)
          && (fwd && c.t.forward == [] ==> c.log.remoteFin == 0))
  }

  lemma ForwardDrains(c: Conn, buffer: int, sends: seq<SendStep>)
    requires Inv(c) && c.t.socket >= 0 && c.t.state != Listen && |sends| >= |c.t.forward|
    ensures var f := Forward(c, buffer, sends); Drained(f.0, f.1) && ProgressOpen(c, f.0)
  {
    ForwardCounts(c, buffer, sends);
    ModAdd(RemotePos(Forward(c, buffer, sends).0), 1);
  }

  lemma AcknowledgeKeeps(c: Conn, fwd: bool, after: SendBuffer, ok: bool, now: int)
    requires Drained(c, fwd)
    ensures Inv(Acknowledge(c, fwd, after, ok, now)) && ProgressOpen(c, Acknowledge(c, fwd, after, ok, now))
    ensures Acknowledge(c, fwd, after, ok, now).t.state == c.t.state
         || Acknowledge(c, fwd, after, ok, now).t.state == Closing
  {
    ModAdd(RemotePos(c), 1);
    hide AllSound, Build, GetReceiveWindow, Mod32;
  }

  /** Forwarding and acknowledging, up to where the socket is read. */
  lemma BeforeReadKeeps(c: Conn, e: SocketEvent)
    requires Inv(c) && c.t.socket >= 0 && c.t.state != Listen && |e.sends| >= |c.t.forward|
    ensures Inv(BeforeRead(c, e)) && ProgressOpen(c, BeforeRead(c, e))
  {
    var buffer := GetReceiveBuffer(c.t.socket, e.before);
    var f := if e.writable then Forward(c, buffer, e.sends) else (c, false);
    if e.writable {
      ForwardDrains(c, buffer, e.sends);
    }
    assert Drained(f.0, f.1) && ProgressOpen(c, f.0);
    AcknowledgeKeeps(f.0, f.1, e.after, e.ackOk, e.now);
  }

  /** A FIN is counted; the socket is about to be closed. */
  lemma WriteFinKeeps(c: Conn, ok: bool)
    requires Inv(c) && c.t.socket >= 0 && IsOpen(c.t) && c.t.forward == []
    ensures var d := WriteFin(c, ok);
            && AllSound(d.t.forward) && (d.t.dest != TLS_PORT ==> Accounted(d)) && ProgressOpen(c, d)
  {
    ModAdd(LocalPos(c), 1);
    hide Build, Mod32, AllSound;
  }

  lemma CloseKeeps(c: Conn, d: Conn)
    requires c.t.socket >= 0 && ProgressOpen(c, d) && AllSound(d.t.forward)
    requires d.t.dest != TLS_PORT ==> Accounted(d)
    ensures Inv(CloseSocket(d)) && Progress(c, CloseSocket(d))
  {
    hide AllSound, Mod32;
  }

  lemma ReadEofKeeps(c: Conn, ok: bool)
    requires Inv(c) && c.t.socket >= 0 && IsOpen(c.t)
    ensures Inv(ReadEof(c, ok)) && Progress(c, ReadEof(c, ok))
  {
    hide WriteRst, WriteFin, CloseSocket, AllSound, Accounted, ProgressOpen, Progress;
    if c.t.forward == [] {
      WriteFinKeeps(c, ok);
      CloseKeeps(c, WriteFin(c, ok));
    } else {
      WriteRstKeeps(c, ok);
      CloseKeeps(c, WriteRst(c, ok));
    }
  }

  lemma ReadDataKeeps(c: Conn, data: seq<u8>, ok: bool)
    requires Inv(c) && IsOpen(c.t)
    ensures Inv(ReadData(c, data, ok)) && ProgressOpen(c, ReadData(c, data, ok))
  {
    ModAdd(LocalPos(c), |data|);
  }

  lemma ReadSocketKeeps(c: Conn, readable: bool, recv: RecvResult, ok: bool, now: int)
    requires Inv(c) && c.t.socket >= 0
    ensures Inv(ReadSocket(c, readable, recv, ok, now)) && Progress(c, ReadSocket(c, readable, recv, ok, now))
  {
    if IsOpen(c.t) {
      var c1 := c.(t := c.t.(time := now));
      assert Inv(c1) && ProgressOpen(c, c1);
      WriteRstKeeps(c1, ok);
      ReadEofKeeps(c1, ok);
      if recv.Bytes? {
        ReadDataKeeps(c1, recv.data, ok);
      }
    }
  }

  lemma ConnectedKeeps(c: Conn, ok: bool, now: int)
    requires Inv(c) && c.t.state == Listen
    ensures Inv(Connected(c, ok, now)) && ProgressOpen(c, Connected(c, ok, now))
  {
    ModAdd(RemotePos(c), 1);
    ModAdd(LocalPos(c), 1);
  }

  lemma ReadConnectReplyKeeps(c: Conn, recv: RecvResult, ok: bool)
    requires Inv(c) && c.t.state == Listen && (c.t.dest != TLS_PORT ==> c.t.connectSent != Requested)
    ensures Inv(ReadConnectReply(c, recv, ok)) && ProgressOpen(c, ReadConnectReply(c, recv, ok))
  {
    WriteRstKeeps(c, ok);
  }

  lemma KeepAliveKeeps(c: Conn, ms: int, ok: bool)
    requires Inv(c) && IsOpen(c.t)
    ensures Inv(KeepAlive(c, ms, ok)) && ProgressOpen(c, KeepAlive(c, ms, ok))
    ensures KeepAlive(c, ms, ok).t.remoteSeq == c.t.remoteSeq
  {
    ModAdd(c.t.remoteSeq - 1, 1);
    assert Mod32(c.t.remoteSeq) == c.t.remoteSeq;
    hide Mod32, AllSound, Build;
  }

  lemma RearmKeeps(c: Conn, wantIn: bool, wantOut: bool, ctlOk: bool)
    requires Inv(c) && c.t.state != Close
    ensures Inv(Rearm(c, wantIn, wantOut, ctlOk)) && ProgressOpen(c, Rearm(c, wantIn, wantOut, ctlOk))
  {
  }

  lemma MonitorKeeps(c: Conn, b: SendBuffer, ms: int, ok: bool, ctlOk: bool)
    requires Inv(c) && c.t.socket >= 0
    ensures Inv(Monitor(c, b, ms, ok, ctlOk)) && ProgressOpen(c, Monitor(c, b, ms, ok, ctlOk))
  {
    var c1 := if IsOpen(c.t) && GetSendWindow(c.t) == 0 then KeepAlive(c, ms, ok) else c;
    if IsOpen(c.t) {
      KeepAliveKeeps(c, ms, ok);
    }
    forall wantIn, wantOut
      ensures Inv(Rearm(c1, wantIn, wantOut, ctlOk)) && ProgressOpen(c1, Rearm(c1, wantIn, wantOut, ctlOk))
    {
      RearmKeeps(c1, wantIn, wantOut, ctlOk);
    }
  }

  lemma ExpireKeeps(c: Conn, now: int, timeout: int, ok: bool)
    requires Inv(c)
    ensures Inv(Expire(c, now, timeout, ok)) && ProgressOpen(c, Expire(c, now, timeout, ok))
  {
    WriteRstKeeps(c, ok);
  }

  lemma RetireKeeps(c: Conn, now: int)
    requires Inv(c)
    ensures Inv(Retire(c, now)) && Progress(c, Retire(c, now))
  {
  }

  lemma CheckSessionKeeps(c: Conn, now: int, sessions: int, maxSessions: int, ok: bool)
    requires Inv(c) && maxSessions > 0
    ensures var r := CheckSession(c, now, sessions, maxSessions, ok);
            Inv(r.0) && Progress(c, r.0) && (r.1 ==> r.0.t.state == Close && r.0.t.socket == -1)
  {
    var timeout := GetTcpTimeout(c.t.state, sessions, maxSessions);
    ExpireKeeps(c, now, timeout, ok);
    RetireKeeps(Expire(c, now, timeout, ok), now);
  }

  lemma SocketStepKeeps(c: Conn, e: SocketEvent)
    requires Inv(c) && c.t.socket >= 0 && |e.sends| >= |c.t.forward|
    ensures Inv(SocketStep(c, e)) && Progress(c, SocketStep(c, e))
  {
    if e.err {
      var c1 := c.(t := c.t.(time := e.now));
      assert Inv(c1) && ProgressOpen(c, c1);
      WriteRstKeeps(c1, e.rstOk);
    } else if c.t.state == Listen {
      ConnectedKeeps(c, e.tunOk, e.now);
      ReadConnectReplyKeeps(c, e.recv, e.tunOk);
    } else {
      BeforeReadKeeps(c, e);
      ReadSocketKeeps(BeforeRead(c, e), e.readable, e.recv, e.tunOk, e.now);
    }
  }

  // ---------- every step, every run ----------

  lemma StepKeeps(c: Conn, e: Event)
    requires Inv(c) && Enabled(c, e)
    ensures Inv(Step(c, e)) && Progress(c, Step(c, e))
  {
    match e
    case Arrive(p, now, sendOk, ok) => ArriveKeeps(c, p, now, sendOk, ok);
    case Ready(ev) => SocketStepKeeps(c, ev);
    case Watch(b, ms, ok, ctlOk) => MonitorKeeps(c, b, ms, ok, ctlOk);
    case Tick(now, sessions, maxSessions, ok) => CheckSessionKeeps(c, now, sessions, maxSessions, ok);
  }

  /** A session starts inside the invariant. */
  lemma NewSessionInv(m: Subtraction, p: Packet, mss: u16, scale: nat, isn: u32, dest: u16, socket: int, now: int,
                      b: SendBuffer)
    requires |p.data| < 0x1_0000 && socket >= 0
    ensures var c := NewConn(m, p, mss, scale, isn, dest, socket, now, b);
            Inv(c) && c.t.dest == dest && c.t.remoteStart == p.seqno && c.t.localStart == isn
  {
    hide GetReceiveWindow, Pow2;
  }

  /** A run: every event is one the surroundings can produce in the state it meets. */
  predicate Legal(c: Conn, es: seq<Event>)
    decreases |es|
  {
    es == [] || ((forall s | s in c.t.forward :: Sound(s)) && Enabled(c, es[0]) && Legal(Step(c, es[0]), es[1..]))
  }

  function Run(c: Conn, es: seq<Event>): Conn
    requires Legal(c, es)
    decreases |es|
  {
    if es == [] then c else Run(Step(c, es[0]), es[1..])
  }

  /**
    Over every run: outside port 443 both sequence numbers are made up of SYN,
    bytes and FIN as counted, each SYN and FIN at most once, and the state never
    goes back; on every port the states after the close have no socket.
  */
  lemma {:induction false} RunKeeps(c: Conn, es: seq<Event>)
    requires Inv(c) && Legal(c, es)
    ensures Inv(Run(c, es))
    ensures Run(c, es).t.dest == c.t.dest
    ensures c.t.dest != TLS_PORT ==> Rank(c.t.state) <= Rank(Run(c, es).t.state)
    decreases |es|
  {
    if es == [] {
    } else {
      StepKeeps(c, es[0]);
      RunKeeps(Step(c, es[0]), es[1..]);
    }
  }

  /** Written out for a session from its SYN on. */
  lemma SequenceAccounting(m: Subtraction, p: Packet, mss: u16, scale: nat, isn: u32, dest: u16, socket: int, now: int,
                           b: SendBuffer, es: seq<Event>)
    requires |p.data| < 0x1_0000 && socket >= 0 && dest != TLS_PORT
    requires Legal(NewConn(m, p, mss, scale, isn, dest, socket, now, b), es)
    ensures var c := Run(NewConn(m, p, mss, scale, isn, dest, socket, now, b), es);
            && c.t.remoteSeq == Mod32(p.seqno + c.log.remoteSyn + c.log.advanced + c.log.remoteFin)
            && c.t.localSeq == Mod32(isn + c.log.localSyn + |c.log.down| + c.log.localFin)
            && c.log.remoteSyn <= 1 && c.log.remoteFin <= 1 && c.log.localSyn <= 1 && c.log.localFin <= 1
            && (IsOpen(c.t) ==> c.log.remoteSyn == 1 && c.log.localSyn == 1 && c.log.localFin == 0)
  {
    NewSessionInv(m, p, mss, scale, isn, dest, socket, now, b);
    hide AllSound, NewConn, Run, Legal, Mod32;
    RunKeepsStart(NewConn(m, p, mss, scale, isn, dest, socket, now, b), es);
    RunKeeps(NewConn(m, p, mss, scale, isn, dest, socket, now, b), es);
  }

  lemma {:induction false} RunKeepsStart(c: Conn, es: seq<Event>)
    requires Inv(c) && Legal(c, es)
    ensures Run(c, es).t.remoteStart == c.t.remoteStart && Run(c, es).t.localStart == c.t.localStart
    ensures Run(c, es).t.sendScale == c.t.sendScale && Run(c, es).t.recvScale == c.t.recvScale
    ensures Run(c, es).t.sub == c.t.sub
    decreases |es|
  {
    if es == [] {
    } else {
      StepKeeps(c, es[0]);
      RunKeepsStart(Step(c, es[0]), es[1..]);
    }
  }

  // ---------- removal ----------

  /**
    A session left alone is gone after two checks: the first past its idle
    timeout closes it, the second removes it exactly when TCP_KEEP_TIMEOUT has passed.
  */
  lemma TwoChecksRemove(c: Conn, now: int, later: int, n: int, m: int, maxSessions: int, ok: bool, ok2: bool)
    requires Inv(c) && maxSessions > 0 && c.t.state != Close
    requires c.t.state != Closing ==> c.t.time + GetTcpTimeout(c.t.state, n, maxSessions) < now
    ensures var r := CheckSession(c, now, n, maxSessions, ok);
            && !r.1 && r.0.t.state == Close && r.0.t.socket == -1
            && (CheckSession(r.0, later, m, maxSessions, ok2).1 <==> now + TCP_KEEP_TIMEOUT < later)
            && CheckSession(r.0, later, m, maxSessions, ok2).0 == r.0
  {
  }

  /** Before its timeout a session is left exactly as it is. */
  lemma EarlyCheckKeeps(c: Conn, now: int, n: int, maxSessions: int, ok: bool)
    requires maxSessions > 0 && c.t.state != Closing && c.t.state != Close
    requires now <= c.t.time + GetTcpTimeout(c.t.state, n, maxSessions)
    ensures CheckSession(c, now, n, maxSessions, ok) == (c, false)
  {
  }
}
