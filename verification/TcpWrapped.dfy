/**
  compare_u32 with wrapped differences, as compiled: what its uses do when two
  numbers lie across 2^31, and why a run in which none do is the run over
  unbounded differences.
*/
module TcpWrapped {
  import opened Words
  import opened TcpQueue
  import opened TcpModel
  import opened TcpAccounting
  import opened TcpStream
  import opened TcpWindow
  import opened TcpGranted
  import opened TcpProgress

  // ---------- acknowledgements ----------

  /** An acknowledgement of something sent and not yet acknowledged, other than the last byte. */
  predicate Newer(c: Conn, p: Packet) {
    1 < Mod32(c.t.localSeq - p.ackno) < Behind(c)
  }

  lemma NotKeepAlive(ackno: u32, local: u32)
    requires Mod32(local - ackno) > 1
    ensures Mod32(ackno + 1) != local
  {
    ForwardDistance(ackno, local);
  }

  lemma WriteRstCloses(c: Conn, ok: bool)
    requires Live(c.t.state)
    ensures !Live(WriteRst(c, ok).t.state)
  {
  }

  lemma NewerCompared(m: Subtraction, ackno: u32, acked: u32, local: u32)
    requires 1 < Mod32(local - ackno) < Mod32(local - acked) <= MAX_WINDOW
    ensures CompareU32(m, ackno, local) < 0 <==> (m.Wrapped? ==> Signed32(ackno) < Signed32(local))
    ensures CompareU32(m, ackno, acked) > 0 <==> (m.Wrapped? ==> Signed32(acked) < Signed32(ackno))
    ensures m.Wrapped? ==> Signed32(ackno) != Signed32(local) && Signed32(acked) != Signed32(ackno)
    ensures m.Wrapped? && Signed32(acked) > Signed32(ackno) ==> Signed32(acked) > Signed32(local)
  {
    ForwardDistance(ackno, local);
    ForwardDistance(acked, local);
    match m
    case Unbounded =>
      CompareByDistance(ackno, local);
      CompareByDistance(ackno, acked);
      ForwardDistance(ackno, acked);
    case Wrapped =>
      WrappedIsSignedOrder(ackno, local);
      WrappedIsSignedOrder(ackno, acked);
  }

  /**
    A newer acknowledgement is taken over unbounded differences. Over wrapped ones
    it is taken exactly when the signed views of the three words are in order,
    resets the session as a future one exactly when it lies across 2^31 from
    local_seq, and is ignored exactly when it lies across 2^31 from acked.
  */
  lemma NewerAckTakenIff(c: Conn, p: Packet, ok: bool)
    requires WindowInv(c) && Live(c.t.state) && Newer(c, p)
    ensures var d := HandleOtherAck(c, p, ok);
            && (d == c.(t := c.t.(acked := p.ackno)) <==>
                  (c.t.sub.Wrapped? ==> Signed32(c.t.acked) < Signed32(p.ackno) < Signed32(c.t.localSeq)))
            && (d == WriteRst(c, ok) <==> c.t.sub.Wrapped? && Signed32(p.ackno) > Signed32(c.t.localSeq))
            && (d == c <==> c.t.sub.Wrapped? && Signed32(p.ackno) < Signed32(c.t.localSeq)
                            && Signed32(p.ackno) < Signed32(c.t.acked))
  {
    NewerCompared(c.t.sub, p.ackno, c.t.acked, c.t.localSeq);
    NotKeepAlive(p.ackno, c.t.localSeq);
    WriteRstCloses(c, ok);
    assert c.t.acked != p.ackno;
    hide WriteRst, CompareU32, Mod32, Signed32;
  }

  // ---------- the segment queue ----------

  /** A segment near remote_seq is judged rightly exactly while no wrapped difference lies across 2^31. */
  lemma DropsWhatIsBehindIff(m: Subtraction, remoteSeq: u32, seqno: u32)
    requires -0x7FFF_FFFF < Distance(remoteSeq, seqno) < 0x7FFF_FFFF
    ensures (CompareU32(m, seqno, remoteSeq) < 0 <==> Distance(remoteSeq, seqno) < 0) <==> Alike(m, seqno, remoteSeq)
  {
    DistanceToSelf(remoteSeq);
    JudgedAlike(remoteSeq, seqno, remoteSeq);
    CompareIsPosition(Unbounded, remoteSeq, seqno, remoteSeq);
    hide Distance, CompareU32, SameSide;
    assert m == Unbounded || m == Wrapped;
  }

  /** In an ordered queue the two scans stop at the same place exactly when no segment passed lies across 2^31. */
  lemma ScansAgreeIff(origin: u32, q: seq<Segment>, seqno: u32)
    requires Ordered(origin, q) && Comparable(Unbounded, origin, q, seqno)
    ensures Scan(Wrapped, q, seqno) == Scan(Unbounded, q, seqno) <==>
            forall j | 0 <= j < |q| && j <= Scan(Unbounded, q, seqno) :: SameSide(q[j].seqno, seqno)
  {
    var i, k := Scan(Unbounded, q, seqno), Scan(Wrapped, q, seqno);
    ScanSplitsByPosition(Unbounded, origin, q, seqno);
    forall j | 0 <= j < |q|
      ensures SameSide(q[j].seqno, seqno) <==>
              (CompareU32(Wrapped, q[j].seqno, seqno) < 0 <==> CompareU32(Unbounded, q[j].seqno, seqno) < 0)
    {
      assert q[j] in q;
      JudgedAlike(origin, q[j].seqno, seqno);
    }
    hide CompareU32, Comparable, Ordered, SameSide, Scan;
  }

  lemma JudgedAlike(origin: u32, a: u32, b: u32)
    requires -0x7FFF_FFFF < Distance(origin, a) - Distance(origin, b) < 0x7FFF_FFFF
    ensures SameSide(a, b) <==> (CompareU32(Wrapped, a, b) < 0 <==> CompareU32(Unbounded, a, b) < 0)
  {
    WrappedComparisonDomain(a, b);
    CompareIsPosition(Unbounded, origin, a, b);
    WrappedIsSignedOrder(a, b);
    WordAtDistance(origin, a);
    WordAtDistance(origin, b);
    CompareOrdersWindow(Wrapped, origin + Distance(origin, a), origin + Distance(origin, b));
    hide Distance, Mod32;
  }

  /** What insertion at i puts at i and leaves before it. */
  lemma InsertedAt(q: seq<Segment>, i: nat, n: Segment)
    requires i <= |q|
    ensures (q[..i] + [n] + q[i..])[i] == n
    ensures forall j | 0 <= j < i :: (q[..i] + [n] + q[i..])[j] == q[j]
  {
  }

  lemma PutAlike(m: Subtraction, q: seq<Segment>, seqno: u32, psh: bool, data: seq<u8>)
    requires |data| < 0x1_0000 && Scan(m, q, seqno) == Scan(Unbounded, q, seqno)
    ensures Enqueue(m, q, seqno, psh, data) == Enqueue(Unbounded, q, seqno, psh, data)
  {
    var i := Scan(m, q, seqno);
    if i < |q| {
      SameWord(m, q[i].seqno, seqno);
      SameWord(Unbounded, q[i].seqno, seqno);
    }
    hide Scan, CompareU32;
  }

  /** The offered number stands where the scan stopped. */
  lemma PutHere(m: Subtraction, q: seq<Segment>, seqno: u32, psh: bool, data: seq<u8>)
    requires |data| < 0x1_0000
    ensures var i := Scan(m, q, seqno);
            |Enqueue(m, q, seqno, psh, data)| > i && Enqueue(m, q, seqno, psh, data)[i].seqno == seqno
  {
    var i := Scan(m, q, seqno);
    InsertedAt(q, i, Segment(seqno, |data|, 0, psh, data));
    if i < |q| {
      SameWord(m, q[i].seqno, seqno);
    }
    hide Scan, CompareU32;
  }

  /** What the scan passed stays where it is. */
  lemma PutBehind(m: Subtraction, q: seq<Segment>, seqno: u32, psh: bool, data: seq<u8>, i: nat)
    requires |data| < 0x1_0000 && i < Scan(m, q, seqno)
    ensures |Enqueue(m, q, seqno, psh, data)| > i && Enqueue(m, q, seqno, psh, data)[i] == q[i] && q[i].seqno != seqno
  {
    InsertedAt(q, Scan(m, q, seqno), Segment(seqno, |data|, 0, psh, data));
    SameWord(m, q[i].seqno, seqno);
    hide Scan, CompareU32;
  }

  /** Two scans that stop at different places give different queues. */
  lemma PutApart(m: Subtraction, n: Subtraction, q: seq<Segment>, seqno: u32, psh: bool, data: seq<u8>)
    requires |data| < 0x1_0000 && Scan(m, q, seqno) < Scan(n, q, seqno)
    ensures Enqueue(m, q, seqno, psh, data) != Enqueue(n, q, seqno, psh, data)
  {
    PutHere(m, q, seqno, psh, data);
    PutBehind(n, q, seqno, psh, data, Scan(m, q, seqno));
    hide Scan, Enqueue;
  }

  /** Then, and only then, the segment ends up where it belongs. */
  lemma EnqueueAgreesIff(origin: u32, q: seq<Segment>, seqno: u32, psh: bool, data: seq<u8>)
    requires |data| < 0x1_0000 && Ordered(origin, q) && Comparable(Unbounded, origin, q, seqno)
    ensures Enqueue(Wrapped, q, seqno, psh, data) == Enqueue(Unbounded, q, seqno, psh, data) <==>
            forall j | 0 <= j < |q| && j <= Scan(Unbounded, q, seqno) :: SameSide(q[j].seqno, seqno)
  {
    ScansAgreeIff(origin, q, seqno);
    hide Scan, Ordered, Comparable, SameSide, Enqueue;
    if Scan(Unbounded, q, seqno) < Scan(Wrapped, q, seqno) {
      PutApart(Unbounded, Wrapped, q, seqno, psh, data);
    } else if Scan(Wrapped, q, seqno) < Scan(Unbounded, q, seqno) {
      PutApart(Wrapped, Unbounded, q, seqno, psh, data);
    } else {
      PutAlike(Wrapped, q, seqno, psh, data);
    }
  }

  // ---------- runs in which nothing lies across 2^31 ----------

  /** The same connection with the intended differences. */
  function Intended(c: Conn): Conn {
    c.(t := c.t.(sub := Unbounded))
  }

  /** No pair of words the event has compared lies across 2^31. */
  predicate ComparesAlike(c: Conn, e: Event) {
    match e
    case Arrive(p, _, _, _) =>
      && (p.data != [] ==> NoneAcross(c, p))
      && (p.ack && p.ackno != c.t.localSeq ==>
            Alike(c.t.sub, p.ackno, c.t.localSeq) && Alike(c.t.sub, p.ackno, c.t.acked))
    case Ready(_) => IsOpen(c.t) ==> Alike(c.t.sub, c.t.acked, c.t.localSeq)
    case Watch(_, _, _, _) => IsOpen(c.t) ==> Alike(c.t.sub, c.t.acked, c.t.localSeq)
    case Tick(_, _, _, _) => true
  }

  lemma AlikeCompares(m: Subtraction, a: u32, b: u32)
    requires Alike(m, a, b)
    ensures CompareU32(m, a, b) == CompareU32(Unbounded, a, b)
  {
    WrappedComparisonDomain(a, b);
    hide CompareU32;
    assert m == Unbounded || m == Wrapped;
  }

  lemma {:induction false} AlikeScans(m: Subtraction, q: seq<Segment>, seqno: u32)
    requires forall s | s in q :: Alike(m, s.seqno, seqno)
    ensures Scan(m, q, seqno) == Scan(Unbounded, q, seqno)
  {
    if q == [] {
    } else {
      assert q[0] in q && forall s | s in q[1..] :: s in q;
      AlikeCompares(m, q[0].seqno, seqno);
      hide CompareU32, Alike;
      AlikeScans(m, q[1..], seqno);
    }
  }

  lemma OrCloseIntended(c: Conn, data: seq<u8>, syn: bool, fin: bool, ok: bool)
    ensures WriteOrClose(Intended(c), data, syn, fin, ok) == Intended(WriteOrClose(c, data, syn, fin, ok))
  {
  }

  lemma RstIntended(c: Conn, ok: bool)
    ensures WriteRst(Intended(c), ok) == Intended(WriteRst(c, ok))
  {
    hide Mod32;
  }

  lemma QueueIntended(c: Conn, p: Packet)
    requires |p.data| < 0x1_0000 && NoneAcross(c, p)
    ensures Queue(Intended(c), p) == Intended(Queue(c, p))
  {
    AlikeCompares(c.t.sub, p.seqno, c.t.remoteSeq);
    AlikeScans(c.t.sub, c.t.forward, p.seqno);
    PutAlike(c.t.sub, c.t.forward, p.seqno, p.psh, p.data);
    hide CompareU32, Scan, Enqueue, Alike;
  }

  lemma OtherAckIntended(c: Conn, p: Packet, ok: bool)
    requires Alike(c.t.sub, p.ackno, c.t.localSeq) && Alike(c.t.sub, p.ackno, c.t.acked)
    ensures HandleOtherAck(Intended(c), p, ok) == Intended(HandleOtherAck(c, p, ok))
  {
    AlikeCompares(c.t.sub, p.ackno, c.t.localSeq);
    AlikeCompares(c.t.sub, p.ackno, c.t.acked);
    RstIntended(c, ok);
    hide CompareU32, Alike, Mod32, WriteRst;
  }

  lemma CurrentIntended(c: Conn, p: Packet, ok: bool)
    ensures HandleCurrent(Intended(c), p, ok) == Intended(HandleCurrent(c, p, ok))
  {
    OrCloseIntended(CountRemoteFin(c), [], false, false, ok);
    hide Mod32, WriteOrClose;
  }

  lemma FlagsIntended(c: Conn, p: Packet, ok: bool)
    requires p.ack && p.ackno != c.t.localSeq ==>
               Alike(c.t.sub, p.ackno, c.t.localSeq) && Alike(c.t.sub, p.ackno, c.t.acked)
    ensures HandleFlags(Intended(c), p, ok) == Intended(HandleFlags(c, p, ok))
  {
    CurrentIntended(c, p, ok);
    hide HandleCurrent, HandleOtherAck, Alike;
    if p.ack && p.ackno != c.t.localSeq {
      OtherAckIntended(c, p, ok);
    }
  }

  lemma OpenIntended(c: Conn, p: Packet, ok: bool)
    requires |p.data| < 0x1_0000 && (p.data != [] ==> NoneAcross(c, p))
    requires p.ack && p.ackno != c.t.localSeq ==>
               Alike(c.t.sub, p.ackno, c.t.localSeq) && Alike(c.t.sub, p.ackno, c.t.acked)
    ensures HandleOpen(Intended(c), p, ok) == Intended(HandleOpen(c, p, ok))
  {
    RstIntended(c, ok);
    var q := if p.data != [] then Queue(c, p) else c;
    if p.data != [] {
      QueueIntended(c, p);
    }
    hide HandleFlags, WriteRst, Alike, NoneAcross, QueueTcp;
    FlagsIntended(q, p, ok);
  }

  lemma PacketIntended(c: Conn, p: Packet, now: int, sendOk: bool, ok: bool)
    requires |p.data| < 0x1_0000 && c.t.dest != TLS_PORT && ComparesAlike(c, Arrive(p, now, sendOk, ok))
    ensures HandlePacket(Intended(c), p, now, sendOk, ok) == Intended(HandlePacket(c, p, now, sendOk, ok))
  {
    RstIntended(c, ok);
    assert Stamp(Intended(c), p, now) == Intended(Stamp(c, p, now));
    assert p.data != [] ==> NoneAcross(Stamp(c, p, now), p);
    hide HandleOpen, WriteRst, Alike, NoneAcross, Mod32;
    OpenIntended(Stamp(c, p, now), p, ok);
  }

  lemma OneSendIntended(c: Conn, s: SendStep)
    requires c.t.forward != [] && Sound(c.t.forward[0])
    ensures SendOnce(Intended(c), s) == Intended(SendOnce(c, s))
  {
    hide Mod32;
  }

  lemma SendIntended(c: Conn, buffer: int, s: SendStep)
    requires AllSound(c.t.forward) && CanForward(c.t, buffer)
    ensures SendOnce(Intended(c), s) == Intended(SendOnce(c, s)) && AllSound(SendOnce(c, s).t.forward)
  {
    SendCounts(c, buffer, s);
    assert Sound(c.t.forward[0]);
    hide SendOnce, AllSound;
    OneSendIntended(c, s);
  }

  lemma {:induction false} ForwardIntended(c: Conn, buffer: int, sends: seq<SendStep>)
    requires AllSound(c.t.forward) && |sends| >= |c.t.forward|
    ensures Forward(Intended(c), buffer, sends) ==
            (Intended(Forward(c, buffer, sends).0), Forward(c, buffer, sends).1)
    decreases |c.t.forward|
  {
    hide Forward, SendOnce, AllSound, Mod32;
    ForwardUnfolds(c, buffer, sends);
    ForwardUnfolds(Intended(c), buffer, sends);
    if !CanForward(c.t, buffer) {
    } else {
      var c1 := SendOnce(c, sends[0]);
      SendIntended(c, buffer, sends[0]);
      if |c1.t.forward| < |c.t.forward| {
        ForwardIntended(c1, buffer - (c1.log.advanced - c.log.advanced), sends[1..]);
      }
    }
  }

  lemma WindowIntended(c: Conn)
    requires Alike(c.t.sub, c.t.acked, c.t.localSeq)
    ensures GetSendWindow(Intended(c).t) == GetSendWindow(c.t)
  {
    AlikeCompares(c.t.sub, c.t.acked, c.t.localSeq);
    hide CompareU32, Mod32;
  }

  lemma AcknowledgeIntended(c: Conn, fwd: bool, after: SendBuffer, ok: bool, now: int)
    ensures Acknowledge(Intended(c), fwd, after, ok, now) == Intended(Acknowledge(c, fwd, after, ok, now))
    ensures var d := Acknowledge(c, fwd, after, ok, now);
            && d.t.acked == c.t.acked && d.t.localSeq == c.t.localSeq && d.t.sub == c.t.sub
            && (IsOpen(d.t) ==> IsOpen(c.t))
  {
    var window := GetReceiveWindow(c.t, after);
    assert GetReceiveWindow(Intended(c).t, after) == window;
    var c1 := c.(t := c.t.(recvWindow := window));
    OrCloseIntended(c1, [], false, false, ok);
    OrCloseIntended(CountRemoteFin(c1), [], false, false, ok);
    hide GetReceiveWindow, Mod32, Build;
  }

  /** The two numbers of the window and the state, as the read part finds them. */
  lemma BeforeReadIntended(c: Conn, e: SocketEvent)
    requires AllSound(c.t.forward) && |e.sends| >= |c.t.forward|
    ensures BeforeRead(Intended(c), e) == Intended(BeforeRead(c, e))
    ensures var d := BeforeRead(c, e);
            && d.t.acked == c.t.acked && d.t.localSeq == c.t.localSeq && d.t.sub == c.t.sub
            && (IsOpen(d.t) ==> IsOpen(c.t))
  {
    var buffer := GetReceiveBuffer(c.t.socket, e.before);
    ForwardIntended(c, buffer, e.sends);
    ForwardCounts(c, buffer, e.sends);
    var f := if e.writable then Forward(c, buffer, e.sends) else (c, false);
    AcknowledgeIntended(f.0, f.1, e.after, e.ackOk, e.now);
    hide Forward, Acknowledge, AllSound;
  }

  lemma CloseIntended(c: Conn)
    ensures CloseSocket(Intended(c)) == Intended(CloseSocket(c))
  {}

  lemma EofIntended(c: Conn, ok: bool)
    ensures ReadEof(Intended(c), ok) == Intended(ReadEof(c, ok))
  {
    hide WriteOrClose, WriteRst, Mod32;
    if c.t.forward == [] {
      OrCloseIntended(c, [], false, true, ok);
    } else {
      RstIntended(c, ok);
      CloseIntended(WriteRst(c, ok));
    }
  }

  lemma DataIntended(c: Conn, data: seq<u8>, ok: bool)
    ensures ReadData(Intended(c), data, ok) == Intended(ReadData(c, data, ok))
  {
    OrCloseIntended(c, data, false, false, ok);
    hide WriteOrClose, Mod32;
  }

  lemma ReadIntended(c: Conn, readable: bool, recv: RecvResult, ok: bool, now: int)
    requires IsOpen(c.t) ==> Alike(c.t.sub, c.t.acked, c.t.localSeq)
    ensures ReadSocket(Intended(c), readable, recv, ok, now) == Intended(ReadSocket(c, readable, recv, ok, now))
    ensures IsOpen(c.t) ==> ReadSize(Intended(c).t) == ReadSize(c.t)
  {
    hide GetSendWindow, ReadEof, ReadData, WriteRst, Alike;
    if IsOpen(c.t) {
      WindowIntended(c);
      var c1 := c.(t := c.t.(time := now));
      RstIntended(c1, ok);
      EofIntended(c1, ok);
      if recv.Bytes? {
        DataIntended(c1, recv.data, ok);
      }
    }
  }

  lemma ConnectIntended(c: Conn, readable: bool, recv: RecvResult, ok: bool, now: int)
    ensures ReadConnectReply(Intended(c), recv, ok) == Intended(ReadConnectReply(c, recv, ok))
    ensures Connected(Intended(c), ok, now) == Intended(Connected(c, ok, now))
  {
    RstIntended(c, ok);
    OrCloseIntended(CountRemoteSyn(c), [], true, false, ok);
    hide WriteRst, WriteOrClose, Mod32, Accepts;
  }

  lemma SocketIntended(c: Conn, e: SocketEvent)
    requires AllSound(c.t.forward) && |e.sends| >= |c.t.forward| && ComparesAlike(c, Ready(e))
    ensures SocketStep(Intended(c), e) == Intended(SocketStep(c, e))
  {
    hide BeforeRead, ReadSocket, WriteRst, ReadConnectReply, Connected, Alike, AllSound;
    RstIntended(c.(t := c.t.(time := e.now)), e.rstOk);
    ConnectIntended(c, e.readable, e.recv, e.tunOk, e.now);
    BeforeReadIntended(c, e);
    ReadIntended(BeforeRead(c, e), e.readable, e.recv, e.tunOk, e.now);
  }

  lemma KeepAliveIntended(c: Conn, ms: int, ok: bool)
    ensures KeepAlive(Intended(c), ms, ok) == Intended(KeepAlive(c, ms, ok))
  {
    OrCloseIntended(c.(t := c.t.(lastKeepAlive := ms, remoteSeq := Mod32(c.t.remoteSeq - 1))), [], false, false, ok);
    hide WriteOrClose, Mod32;
  }

  lemma WatchIntended(c: Conn, b: SendBuffer, ms: int, ok: bool, ctlOk: bool)
    requires ComparesAlike(c, Watch(b, ms, ok, ctlOk))
    ensures Monitor(Intended(c), b, ms, ok, ctlOk) == Intended(Monitor(c, b, ms, ok, ctlOk))
  {
    KeepAliveIntended(c, ms, ok);
    hide GetSendWindow, KeepAlive, Alike, GetReceiveBuffer, Mod32;
    if IsOpen(c.t) {
      WindowIntended(c);
    }
  }

  lemma TickIntended(c: Conn, now: int, sessions: int, maxSessions: int, ok: bool)
    requires maxSessions > 0
    ensures CheckSession(Intended(c), now, sessions, maxSessions, ok).0
         == Intended(CheckSession(c, now, sessions, maxSessions, ok).0)
  {
    var timeout := GetTcpTimeout(c.t.state, sessions, maxSessions);
    RstIntended(c, ok);
    assert Expire(Intended(c), now, timeout, ok) == Intended(Expire(c, now, timeout, ok));
    CloseIntended(Expire(c, now, timeout, ok));
    hide Expire, GetTcpTimeout, CloseSocket;
  }

  /** A step that compares nothing across 2^31 is the step over unbounded differences. */
  lemma StepIntended(c: Conn, e: Event)
    requires AllSound(c.t.forward) && c.t.dest != TLS_PORT && Enabled(c, e) && ComparesAlike(c, e)
    ensures Enabled(Intended(c), e) && Step(Intended(c), e) == Intended(Step(c, e))
  {
    match e
    case Arrive(p, now, sendOk, ok) =>
      hide HandlePacket, Alike;
      PacketIntended(c, p, now, sendOk, ok);
    case Ready(ev) =>
      SocketIntended(c, ev);
      BeforeReadIntended(c, ev);
      ReadIntended(BeforeRead(c, ev), ev.readable, ev.recv, ev.tunOk, ev.now);
      hide SocketStep, BeforeRead, Alike;
    case Watch(b, ms, ok, ctlOk) =>
      hide Monitor, Alike;
      WatchIntended(c, b, ms, ok, ctlOk);
    case Tick(now, sessions, maxSessions, ok) =>
      hide CheckSession, Alike;
      TickIntended(c, now, sessions, maxSessions, ok);
  }

  /** No event of the run has words compared that lie across 2^31. */
  predicate NothingAcross(c: Conn, es: seq<Event>)
    requires Legal(c, es)
    decreases |es|
  {
    es == [] || (ComparesAlike(c, es[0]) && NothingAcross(Step(c, es[0]), es[1..]))
  }

  /**
    Over every run outside port 443: when no pair of words compared lies across
    2^31, the compiled code does what the code over unbounded differences does.
  */
  lemma {:induction false} RunIntended(c: Conn, es: seq<Event>)
    requires Inv(c) && c.t.dest != TLS_PORT && Legal(c, es) && NothingAcross(c, es)
    ensures Legal(Intended(c), es) && Run(Intended(c), es) == Intended(Run(c, es))
    decreases |es|
  {
    if es == [] {
    } else {
      StepKeeps(c, es[0]);
      StepIntended(c, es[0]);
      assert forall s | s in Intended(c).t.forward :: Sound(s);
      hide Step, Enabled, Intended, Inv, ComparesAlike;
      RunIntended(Step(c, es[0]), es[1..]);
    }
  }

  // ---------- a run that gets stuck across 2^31 ----------

  /** A session to port 8080 whose peer numbers its bytes from 0x7FFF_FFF0 on. */
  function Across(): Conn {
    NewConn(Wrapped, Packet(0x7FFF_FFEF, 0, 10, true, false, false, false, false, false, []), 1460, 0, 1000, 8080, 5, 0,
            NO_BUFFER)
  }

  function DataOf(seqno: u32, data: seq<u8>): Packet {
    Packet(seqno, 1001, 10, false, true, false, false, false, false, data)
  }

  /** The socket takes 21 bytes. */
  const WRITABLE := Ready(SocketEvent(0, false, false, true, NO_BUFFER, [SendStep(None, Taken(0x15))], NO_BUFFER,
                                      true, true, WouldBlock, true))

  /** Connected and acknowledged; the first 256 bytes arrive, 21 of them leave; the next bytes arrive. */
  function AcrossRun(first: seq<u8>, second: seq<u8>): seq<Event> {
    [ReadyFor(false, WouldBlock), ArrivalOf(AckOf(1001, 10)), ArrivalOf(DataOf(0x7FFF_FFF0, first)), WRITABLE,
     ArrivalOf(DataOf(0x8000_00F0, second))]
  }

  predicate Established8080(c: Conn, remoteSeq: u32, forward: seq<Segment>) {
    && c.t.state == Established && c.t.socket == 5 && c.t.dest == 8080 && c.t.sub == Wrapped
    && c.t.localSeq == 1001 && c.t.remoteSeq == remoteSeq && c.t.forward == forward
  }

  lemma Opens()
    ensures Across().t.forward == [] && Enabled(Across(), ReadyFor(false, WouldBlock))
    ensures var c := Step(Across(), ReadyFor(false, WouldBlock));
            && c.t.forward == [] && Enabled(c, ArrivalOf(AckOf(1001, 10)))
            && Established8080(Step(c, ArrivalOf(AckOf(1001, 10))), 0x7FFF_FFF0, [])
  {
    hide GetReceiveWindow, Build, Pow2;
  }

  lemma Queues(c: Conn, data: seq<u8>)
    requires Established8080(c, 0x7FFF_FFF0, []) && 0 < |data| < 0x1_0000
    ensures Enabled(c, ArrivalOf(DataOf(0x7FFF_FFF0, data)))
    ensures Established8080(Step(c, ArrivalOf(DataOf(0x7FFF_FFF0, data))), 0x7FFF_FFF0,
                            [Segment(0x7FFF_FFF0, |data|, 0, false, data)])
  {
    hide Build, Pow2;
  }

  lemma SendsSome(c: Conn, data: seq<u8>)
    requires |data| == 0x100 && Established8080(c, 0x7FFF_FFF0, [Segment(0x7FFF_FFF0, 0x100, 0, false, data)])
    ensures AllSound(c.t.forward) && Enabled(c, WRITABLE)
    ensures Established8080(Step(c, WRITABLE), 0x8000_0005, [Segment(0x7FFF_FFF0, 0x100, 0x15, false, data)])
  {
    assert Sound(c.t.forward[0]);
    var f := SendOnce(c, WRITABLE.event.sends[0]);
    assert f.t.forward == [Segment(0x7FFF_FFF0, 0x100, 0x15, false, data)];
    assert Forward(c, GetReceiveBuffer(5, NO_BUFFER), WRITABLE.event.sends) == (f, true);
    hide Forward, GetReceiveWindow, Build, Pow2, SendOnce;
  }

  /** The head starts before 2^31 and the offered segment behind it. */
  lemma Overtakes(h: Segment, data: seq<u8>)
    requires h.seqno == 0x7FFF_FFF0 && |data| < 0x1_0000
    ensures var n := Segment(0x8000_00F0, |data|, 0, false, data);
            && Enqueue(Unbounded, [h], n.seqno, n.psh, n.data) == [h, n]
            && Enqueue(Wrapped, [h], n.seqno, n.psh, n.data) == [n, h]
  {
    assert Scan(Wrapped, [h], 0x8000_00F0) == 0;
    assert Scan(Unbounded, [h], 0x8000_00F0) == 1 + Scan(Unbounded, [h][1..], 0x8000_00F0) == 1;
  }

  lemma QueuesInFront(c: Conn, first: seq<u8>, second: seq<u8>)
    requires |first| == 0x100 && 0 < |second| < 0x1_0000
    requires Established8080(c, 0x8000_0005, [Segment(0x7FFF_FFF0, 0x100, 0x15, false, first)])
    ensures AllSound(c.t.forward) && Enabled(c, ArrivalOf(DataOf(0x8000_00F0, second)))
    ensures Established8080(Step(c, ArrivalOf(DataOf(0x8000_00F0, second))), 0x8000_0005,
                            [Segment(0x8000_00F0, |second|, 0, false, second),
                             Segment(0x7FFF_FFF0, 0x100, 0x15, false, first)])
  {
    Overtakes(c.t.forward[0], second);
    assert Sound(c.t.forward[0]);
    hide Build, Pow2, Enqueue;
  }

  lemma Stuck(c: Conn, first: seq<u8>, second: seq<u8>)
    requires |first| == 0x100 && 0 < |second| < 0x1_0000
    requires Established8080(c, 0x8000_0005, [Segment(0x8000_00F0, |second|, 0, false, second),
                                              Segment(0x7FFF_FFF0, 0x100, 0x15, false, first)])
    ensures NextQueued(c) && forall buffer :: !CanForward(c.t, buffer)
  {
    assert c.t.forward[1] in c.t.forward;
  }

  /**
    A segment that was sent past 2^31 in part is overtaken by the next one: the
    peer's next byte is queued, but the forward loop, which looks at the first
    segment alone, stops whatever the room. With unbounded differences it would
    move (TcpProgress.NextByteMoves).
  */
  lemma HeadOvertaken(first: seq<u8>, second: seq<u8>)
    requires |first| == 0x100 && 0 < |second| < 0x1_0000
    ensures Legal(Across(), AcrossRun(first, second))
    ensures var c := Run(Across(), AcrossRun(first, second));
            && Established8080(c, 0x8000_0005, [Segment(0x8000_00F0, |second|, 0, false, second),
                                                Segment(0x7FFF_FFF0, 0x100, 0x15, false, first)])
            && NextQueued(c) && forall buffer :: !CanForward(c.t, buffer)
  {
    var e1, e2 := ReadyFor(false, WouldBlock), ArrivalOf(AckOf(1001, 10));
    var e3, e5 := ArrivalOf(DataOf(0x7FFF_FFF0, first)), ArrivalOf(DataOf(0x8000_00F0, second));
    hide Across, ReadyFor, ArrivalOf, AckOf, DataOf, Step, Enabled, Established8080, NextQueued, CanForward;
    Opens();
    var c1 := Step(Across(), e1);
    var c2 := Step(c1, e2);
    Queues(c2, first);
    var c3 := Step(c2, e3);
    SendsSome(c3, first);
    var c4 := Step(c3, WRITABLE);
    QueuesInFront(c4, first, second);
    var c := Step(c4, e5);
    Stuck(c, first, second);
    FollowedBy(c4, e5, []);
    FollowedBy(c3, WRITABLE, [e5]);
    FollowedBy(c2, e3, [WRITABLE, e5]);
    FollowedBy(c1, e2, [e3, WRITABLE, e5]);
    FollowedBy(Across(), e1, [e2, e3, WRITABLE, e5]);
  }

  lemma FollowedBy(c: Conn, e: Event, es: seq<Event>)
    requires AllSound(c.t.forward) && Enabled(c, e) && Legal(Step(c, e), es)
    ensures Legal(c, [e] + es) && Run(c, [e] + es) == Run(Step(c, e), es)
  {
    hide Step, Enabled;
    assert ([e] + es)[1..] == es && ([e] + es)[0] == e;
  }
}
