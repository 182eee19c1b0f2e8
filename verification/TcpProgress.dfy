/**
  Progress upstream. When the peer's segments do not overlap, the byte at
  remote_seq is at hand as soon as its segment is queued: the session asks for
  writability, and a send that takes anything moves remote_seq.
*/
module TcpProgress {
  import opened Words
  import opened TcpQueue
  import opened TcpModel
  import opened TcpAccounting
  import opened TcpStream

  /** A segment is ahead of remote_seq as a whole, or sent exactly up to it. */
  predicate Sits(origin: u32, s: Segment) {
    && s.sent < s.len
    && Distance(origin, s.seqno) + s.sent >= 0
    && (s.sent > 0 ==> Distance(origin, s.seqno) + s.sent == 0)
  }

  /** Two segments do not overlap. */
  predicate Apart(origin: u32, s: Segment, t: Segment) {
    Distance(origin, s.seqno) < Distance(origin, t.seqno) ==>
      Distance(origin, s.seqno) + s.len <= Distance(origin, t.seqno)
  }

  ghost predicate Tidy(origin: u32, q: seq<Segment>) {
    (forall s | s in q :: Sits(origin, s)) && (forall s, t | s in q && t in q :: Apart(origin, s, t))
  }

  /** The bytes of a packet are those of a queued segment, or those of none. */
  predicate Clear(origin: u32, s: Segment, p: Packet) {
    || (s.seqno == p.seqno && s.len == |p.data|)
    || Distance(origin, p.seqno) + |p.data| <= Distance(origin, s.seqno)
    || Distance(origin, s.seqno) + s.len <= Distance(origin, p.seqno)
  }

  /** A packet that does not cut into what is queued, or comes late. */
  predicate NoOverlap(c: Conn, p: Packet) {
    p.data != [] && CompareU32(c.t.sub, p.seqno, c.t.remoteSeq) >= 0 ==>
      forall s | s in c.t.forward :: Clear(c.t.remoteSeq, s, p)
  }

  // ---------- steps keep the queue tidy ----------

  lemma OfferedSits(o: u32, q: seq<Segment>, s: Segment, p: Packet)
    requires Tidy(o, q) && p.data != [] && |p.data| < 0x1_0000 && Distance(o, p.seqno) >= 0
    requires forall t | t in q :: Clear(o, t, p)
    requires s.seqno == p.seqno && Offered(q, s, p.seqno, p.psh, p.data)
    ensures Sits(o, s) && s.len == |p.data|
    ensures forall t | t in q && t.seqno != p.seqno :: Apart(o, s, t) && Apart(o, t, s)
  {
    if s != Segment(p.seqno, |p.data|, 0, p.psh, p.data) {
      var t :| t in q && t.seqno == p.seqno && s == t.(data := s.data);
      assert Sits(o, t) && Clear(o, t, p);
    }
    forall t | t in q && t.seqno != p.seqno
      ensures Apart(o, s, t) && Apart(o, t, s)
    {
      assert Clear(o, t, p) && Sits(o, t);
    }
  }

  lemma QueueTidy(c: Conn, stream: seq<u8>, p: Packet)
    requires StreamInv(c, stream) && FromPeer(c, stream, p) && p.data != [] && |p.data| < 0x1_0000
    requires Tidy(c.t.remoteSeq, c.t.forward) && NoOverlap(c, p)
    ensures Tidy(c.t.remoteSeq, Queue(c, p).t.forward)
  {
    hide Enqueue, Scan, CompareU32, Alike;
    var o, q, r := c.t.remoteSeq, c.t.forward, Queue(c, p).t.forward;
    DistanceToSelf(o);
    CompareIsPosition(c.t.sub, o, p.seqno, o);
    if CompareU32(c.t.sub, p.seqno, o) >= 0 {
      PeerComparable(c, stream, p);
      EnqueueKeepsOrder(c.t.sub, o, q, p.seqno, p.psh, p.data);
      OfferedTidy(o, q, r, p);
    }
  }

  lemma OfferedTidy(o: u32, q: seq<Segment>, r: seq<Segment>, p: Packet)
    requires Tidy(o, q) && p.data != [] && |p.data| < 0x1_0000 && Distance(o, p.seqno) >= 0
    requires forall t | t in q :: Clear(o, t, p)
    requires forall s | s in r && s.seqno != p.seqno :: s in q
    requires forall s | s in r && s.seqno == p.seqno :: Offered(q, s, p.seqno, p.psh, p.data)
    ensures Tidy(o, r)
  {
    hide Offered, Clear, Sits;
    forall s | s in r
      ensures Sits(o, s)
    {
      if s.seqno == p.seqno {
        OfferedSits(o, q, s, p);
      }
    }
    forall s, t | s in r && t in r
      ensures Apart(o, s, t)
    {
      if s.seqno == p.seqno && t.seqno != p.seqno {
        OfferedSits(o, q, s, p);
      } else if t.seqno == p.seqno && s.seqno != p.seqno {
        OfferedSits(o, q, t, p);
      }
    }
  }

  /** The same queue, n positions on. */
  lemma ShiftedTidy(o: u32, q: seq<Segment>, n: nat)
    requires n < 0x1_0000 && Tidy(o, q)
    requires forall s | s in q ::
               Distance(o, s.seqno) > -0x1_0000 && (n > 0 ==> s.sent == 0 && Distance(o, s.seqno) >= n)
    ensures Tidy(Mod32(o + n), q)
  {
    forall s | s in q
      ensures Distance(Mod32(o + n), s.seqno) == Distance(o, s.seqno) - n && Sits(Mod32(o + n), s)
    {
      assert Sits(o, s);
      DistanceShift(o, s.seqno, n);
    }
    forall s, t | s in q && t in q
      ensures Apart(Mod32(o + n), s, t)
    {
      assert Apart(o, s, t);
    }
  }

  lemma QuietTidy(c: Conn, d: Conn, stream: seq<u8>)
    requires StreamInv(c, stream) && Quiet(c, d) && d.t.remoteSeq == Mod32(RemotePos(d))
    requires Tidy(c.t.remoteSeq, c.t.forward)
    ensures Tidy(d.t.remoteSeq, d.t.forward)
  {
    var n := RemotePos(d) - RemotePos(c);
    ModAdd(RemotePos(c), n);
    if c.t.forward == [] {
      assert d.t.forward == [];
    } else {
      forall s | s in c.t.forward
        ensures Distance(c.t.remoteSeq, s.seqno) > -0x1_0000
        ensures n > 0 ==> s.sent == 0 && Distance(c.t.remoteSeq, s.seqno) >= n
      {
        assert Placed(c, stream, s) && Sits(c.t.remoteSeq, s);
      }
      ShiftedTidy(c.t.remoteSeq, c.t.forward, n);
    }
  }

  lemma BehindHead(o: u32, q: seq<Segment>, t: Segment)
    requires Ordered(o, q) && Tidy(o, q) && q != [] && t in q[1..] && Distance(o, q[0].seqno) + q[0].sent == 0
    ensures t in q && Distance(o, t.seqno) >= q[0].len - q[0].sent && t.sent == 0
  {
    var j :| 0 <= j < |q[1..]| && q[1..][j] == t;
    assert q[j + 1] == t && Distance(o, q[0].seqno) < Distance(o, q[j + 1].seqno);
    assert Apart(o, q[0], t) && Sits(o, t) && Sits(o, q[0]);
  }

  lemma TailTidy(o: u32, q: seq<Segment>, n: nat)
    requires q != [] && Tidy(o, q) && n <= q[0].len - q[0].sent
    requires forall t | t in q[1..] :: t in q && Distance(o, t.seqno) >= q[0].len - q[0].sent && t.sent == 0
    ensures Tidy(Mod32(o + n), q[1..])
  {
    assert Tidy(o, q[1..]);
    ShiftedTidy(o, q[1..], n);
  }

  /** The head with n more bytes sent, in front of a tidy tail. */
  lemma HeadTidy(o: u32, q: seq<Segment>, n: nat)
    requires q != [] && Tidy(o, q) && q[0].sent + n < q[0].len && Distance(o, q[0].seqno) + q[0].sent == 0
    requires forall t | t in q[1..] :: t in q && Distance(o, t.seqno) >= q[0].len - q[0].sent && t.sent == 0
    requires Tidy(Mod32(o + n), q[1..])
    ensures Tidy(Mod32(o + n), [q[0].(sent := q[0].sent + n)] + q[1..])
  {
    var h := q[0].(sent := q[0].sent + n);
    var r := [h] + q[1..];
    var w := Mod32(o + n);
    DistanceShift(o, h.seqno, n);
    assert Sits(w, h);
    forall t | t in q[1..]
      ensures Apart(w, h, t) && Apart(w, t, h)
    {
      DistanceShift(o, t.seqno, n);
    }
    forall s | s in r
      ensures s == h || s in q[1..]
    {}
    hide Sits, Apart;
    assert forall s, t | s in r && t in r && s != t :: Apart(w, s, t);
    SelfApart(w, h);
  }

  lemma SelfApart(o: u32, s: Segment)
    ensures Apart(o, s, s)
  {}

  /** n bytes of the head sent. */
  lemma SentTidy(o: u32, q: seq<Segment>, n: nat)
    requires Ordered(o, q) && Tidy(o, q) && q != [] && n <= q[0].len - q[0].sent
    requires Distance(o, q[0].seqno) + q[0].sent == 0
    ensures Tidy(Mod32(o + n), q[1..])
    ensures q[0].sent + n < q[0].len ==> Tidy(Mod32(o + n), [q[0].(sent := q[0].sent + n)] + q[1..])
  {
    forall t | t in q[1..]
      ensures t in q && Distance(o, t.seqno) >= q[0].len - q[0].sent && t.sent == 0
    {
      BehindHead(o, q, t);
    }
    hide Tidy;
    TailTidy(o, q, n);
    if q[0].sent + n < q[0].len {
      HeadTidy(o, q, n);
    }
  }

  /** A send that takes part or all of the head. */
  lemma SendTidy(c: Conn, s: SendStep)
    requires c.t.forward != [] && Sound(c.t.forward[0]) && c.t.remoteSeq == Mod32(RemotePos(c))
    requires Mod32(c.t.forward[0].seqno + c.t.forward[0].sent) == c.t.remoteSeq
    requires Ordered(c.t.remoteSeq, c.t.forward) && Tidy(c.t.remoteSeq, c.t.forward)
    ensures Tidy(SendOnce(c, s).t.remoteSeq, SendOnce(c, s).t.forward)
  {
    hide SendOnce, Tidy, Ordered, Distance;
    HeadPosition(c);
    SendMovesRemote(c, s);
    SentTidy(c.t.remoteSeq, c.t.forward, SendOnce(c, s).log.advanced - c.log.advanced);
  }

  lemma {:induction false} ForwardTidy(c: Conn, stream: seq<u8>, buffer: int, sends: seq<SendStep>)
    requires StreamInv(c, stream) && |sends| >= |c.t.forward| && Tidy(c.t.remoteSeq, c.t.forward)
    ensures var d := Forward(c, buffer, sends).0; Tidy(d.t.remoteSeq, d.t.forward)
    decreases |c.t.forward|
  {
    if !CanForward(c.t, buffer) {
    } else {
      var c1 := SendOnce(c, sends[0]);
      assert Sound(c.t.forward[0]);
      SendTidy(c, sends[0]);
      if |c1.t.forward| < |c.t.forward| {
        SendKeepsStream(c, stream, sends[0], buffer);
        ForwardTidy(c1, stream, buffer - (c1.log.advanced - c.log.advanced), sends[1..]);
      }
    }
  }

  // ---------- every step ----------

  lemma HandleOpenTidy(c: Conn, stream: seq<u8>, p: Packet, ok: bool)
    requires Inv(c) && StreamInv(c, stream) && FromPeer(c, stream, p) && c.t.dest != TLS_PORT
    requires |p.data| < 0x1_0000 && c.t.state != Closing && c.t.state != Close
    requires Tidy(c.t.remoteSeq, c.t.forward) && NoOverlap(c, p)
    ensures Tidy(HandleOpen(c, p, ok).t.remoteSeq, HandleOpen(c, p, ok).t.forward)
  {
    HandleOpenKeeps(c, p, ok);
    hide HandleFlags, Tidy, NoOverlap, WriteRst, FromPeer, StreamInv, Quiet;
    if p.data != [] && (c.t.socket < 0 || c.t.state == CloseWait) {
      WriteRstQuiet(c, ok);
      QuietTidy(c, HandleOpen(c, p, ok), stream);
    } else if p.data != [] {
      QueueKeepsStream(c, stream, p);
      QueueKeeps(c, p);
      QueueTidy(c, stream, p);
      HandleFlagsQuiet(Queue(c, p), p, ok);
      QuietTidy(Queue(c, p), HandleOpen(c, p, ok), stream);
    } else {
      HandleFlagsQuiet(c, p, ok);
      QuietTidy(c, HandleOpen(c, p, ok), stream);
    }
  }

  lemma ArriveTidy(c: Conn, stream: seq<u8>, p: Packet, now: int, sendOk: bool, ok: bool)
    requires Inv(c) && StreamInv(c, stream) && FromPeer(c, stream, p) && c.t.dest != TLS_PORT
    requires |p.data| < 0x1_0000 && (sendOk ==> c.t.socket >= 0)
    requires Tidy(c.t.remoteSeq, c.t.forward) && NoOverlap(c, p)
    ensures Tidy(HandlePacket(c, p, now, sendOk, ok).t.remoteSeq, HandlePacket(c, p, now, sendOk, ok).t.forward)
  {
    hide HandleOpen, WriteRst, Tidy, FromPeer, StreamInv, Quiet;
    if p.urg {
    } else if c.t.state == Closing || c.t.state == Close {
      WriteRstQuiet(c, ok);
      WriteRstKeeps(c, ok);
      QuietTidy(c, WriteRst(c, ok), stream);
    } else {
      StampKeepsStream(c, stream, p, now);
      HandleOpenTidy(Stamp(c, p, now), stream, p, ok);
    }
  }

  lemma BeforeReadTidy(c: Conn, stream: seq<u8>, e: SocketEvent)
    requires Inv(c) && StreamInv(c, stream) && c.t.dest != TLS_PORT && Tidy(c.t.remoteSeq, c.t.forward)
    requires c.t.socket >= 0 && c.t.state != Listen && |e.sends| >= |c.t.forward|
    ensures Tidy(BeforeRead(c, e).t.remoteSeq, BeforeRead(c, e).t.forward)
  {
    var buffer := GetReceiveBuffer(c.t.socket, e.before);
    BeforeReadKeeps(c, e);
    hide Forward, Acknowledge, Tidy, StreamInv, Quiet;
    if e.writable {
      ForwardTidy(c, stream, buffer, e.sends);
      ForwardKeepsStream(c, stream, buffer, e.sends);
      ForwardDrains(c, buffer, e.sends);
      var f := Forward(c, buffer, e.sends);
      AcknowledgeQuiet(f.0, f.1, e.after, e.ackOk, e.now);
      QuietTidy(f.0, BeforeRead(c, e), stream);
    } else {
      AcknowledgeQuiet(c, false, e.after, e.ackOk, e.now);
      QuietTidy(c, BeforeRead(c, e), stream);
    }
  }

  lemma SocketStepTidy(c: Conn, stream: seq<u8>, e: SocketEvent)
    requires Inv(c) && StreamInv(c, stream) && c.t.dest != TLS_PORT && Tidy(c.t.remoteSeq, c.t.forward)
    requires Enabled(c, Ready(e))
    ensures Tidy(SocketStep(c, e).t.remoteSeq, SocketStep(c, e).t.forward)
  {
    SocketStepKeeps(c, e);
    hide BeforeRead, ReadSocket, Tidy, StreamInv, Quiet;
    if e.err || c.t.state == Listen {
      EarlySocketQuiet(c, e);
      QuietTidy(c, SocketStep(c, e), stream);
    } else {
      BeforeReadKeeps(c, e);
      BeforeReadKeepsStream(c, stream, e);
      BeforeReadTidy(c, stream, e);
      ReadSocketQuiet(BeforeRead(c, e), e.readable, e.recv, e.tunOk, e.now);
      QuietTidy(BeforeRead(c, e), SocketStep(c, e), stream);
    }
  }

  lemma StepTidy(c: Conn, stream: seq<u8>, e: Event)
    requires Inv(c) && StreamInv(c, stream) && Enabled(c, e) && c.t.dest != TLS_PORT && Tidy(c.t.remoteSeq, c.t.forward)
    requires e.Arrive? ==> FromPeer(c, stream, e.packet) && NoOverlap(c, e.packet)
    ensures Tidy(Step(c, e).t.remoteSeq, Step(c, e).t.forward)
  {
    StepKeeps(c, e);
    hide HandlePacket, SocketStep, Monitor, CheckSession, Tidy, StreamInv, Quiet;
    match e
    case Arrive(p, now, sendOk, ok) => ArriveTidy(c, stream, p, now, sendOk, ok);
    case Ready(ev) => SocketStepTidy(c, stream, ev);
    case Watch(b, ms, ok, ctlOk) =>
      MonitorQuiet(c, b, ms, ok, ctlOk);
      QuietTidy(c, Step(c, e), stream);
    case Tick(now, sessions, maxSessions, ok) =>
      CheckSessionQuiet(c, now, sessions, maxSessions, ok);
      QuietTidy(c, Step(c, e), stream);
  }

  // ---------- progress ----------

  /** The byte with number remote_seq is in the queue. */
  ghost predicate NextQueued(c: Conn) {
    exists s :: s in c.t.forward && Distance(c.t.remoteSeq, s.seqno) <= 0 < Distance(c.t.remoteSeq, s.seqno) + s.len
  }

  lemma CoveringIsHead(o: u32, q: seq<Segment>, j: nat)
    requires Ordered(o, q) && Tidy(o, q) && j < |q|
    requires Distance(o, q[j].seqno) <= 0 < Distance(o, q[j].seqno) + q[j].len
    ensures j == 0 && Distance(o, q[0].seqno) + q[0].sent == 0
  {
    assert Sits(o, q[0]) && Sits(o, q[j]) && Apart(o, q[0], q[j]);
    assert forall k | 0 < k < |q| :: Distance(o, q[0].seqno) < Distance(o, q[k].seqno);
  }

  lemma NumberAt(o: u32, w: u32, n: nat)
    requires Distance(o, w) + n == 0
    ensures Mod32(w + n) == o
  {
    WordAtDistance(o, w);
    ModAdd(o + Distance(o, w), n);
  }

  /** In a tidy queue the next byte is at the head, and all before it was sent. */
  lemma HeadIsNext(c: Conn)
    requires Ordered(c.t.remoteSeq, c.t.forward) && Tidy(c.t.remoteSeq, c.t.forward)
    ensures NextQueued(c) <==>
            c.t.forward != [] && Mod32(c.t.forward[0].seqno + c.t.forward[0].sent) == c.t.remoteSeq
  {
    var o, q := c.t.remoteSeq, c.t.forward;
    hide Mod32, Distance;
    if NextQueued(c) {
      var s :| s in q && Distance(o, s.seqno) <= 0 < Distance(o, s.seqno) + s.len;
      var j :| 0 <= j < |q| && q[j] == s;
      CoveringIsHead(o, q, j);
      NumberAt(o, q[0].seqno, q[0].sent);
    }
    if q != [] && Mod32(q[0].seqno + q[0].sent) == o {
      HeadPosition(c);
      assert q[0] in q && Sits(o, q[0]);
    }
  }

  lemma {:induction false} ForwardGrows(c: Conn, buffer: int, sends: seq<SendStep>)
    requires AllSound(c.t.forward) && |sends| >= |c.t.forward|
    ensures Forward(c, buffer, sends).0.log.advanced >= c.log.advanced
    decreases |c.t.forward|
  {
    if !CanForward(c.t, buffer) {
    } else {
      var c1 := SendOnce(c, sends[0]);
      assert Sound(c.t.forward[0]);
      if |c1.t.forward| < |c.t.forward| {
        ForwardGrows(c1, buffer - (c1.log.advanced - c.log.advanced), sends[1..]);
      }
    }
  }

  /** A first send that takes anything is counted. */
  lemma FirstSendCounts(c: Conn, buffer: int, sends: seq<SendStep>)
    requires AllSound(c.t.forward) && |sends| >= |c.t.forward| && c.t.dest != HTTP_PORT
    requires CanForward(c.t, buffer) && c.t.forward[0].sent < c.t.forward[0].len
    requires sends[0].result.Taken? && sends[0].result.n > 0
    ensures Forward(c, buffer, sends).0.log.advanced > c.log.advanced
  {
    var c1 := SendOnce(c, sends[0]);
    assert Sound(c.t.forward[0]);
    assert c1.log.advanced > c.log.advanced;
    if |c1.t.forward| < |c.t.forward| {
      ForwardGrows(c1, buffer - (c1.log.advanced - c.log.advanced), sends[1..]);
    }
  }

  /** No data packet of the run cuts into what is queued. */
  predicate TidyRun(c: Conn, es: seq<Event>)
    requires Legal(c, es)
    decreases |es|
  {
    es == [] || ((es[0].Arrive? ==> NoOverlap(c, es[0].packet)) && TidyRun(Step(c, es[0]), es[1..]))
  }

  lemma {:induction false} RunTidy(c: Conn, stream: seq<u8>, es: seq<Event>)
    requires Inv(c) && StreamInv(c, stream) && c.t.dest != TLS_PORT && Tidy(c.t.remoteSeq, c.t.forward)
    requires Legal(c, es) && PeerRun(c, stream, es) && TidyRun(c, es)
    ensures StreamInv(Run(c, es), stream) && Tidy(Run(c, es).t.remoteSeq, Run(c, es).t.forward)
    decreases |es|
  {
    if es == [] {
    } else {
      StepKeeps(c, es[0]);
      StepKeepsStream(c, stream, es[0]);
      StepTidy(c, stream, es[0]);
      hide Step, Tidy, StreamInv, Inv;
      RunTidy(Step(c, es[0]), stream, es[1..]);
    }
  }

  /**
    The head goes out whenever the socket has room for the rest of it: the session
    asks for writability, and a writable event whose send takes anything moves
    remote_seq.
  */
  ghost predicate Movable(c: Conn) {
    && c.t.forward != [] && AllSound(c.t.forward)
    && (forall room: SendBuffer, ms: int, ok: bool |
          IsOpen(c.t) && c.t.forward[0].len - c.t.forward[0].sent < GetReceiveBuffer(c.t.socket, room) ::
          Monitor(c, room, ms, ok, true).t.watchOut)
    && (forall e: SocketEvent |
          && Enabled(c, Ready(e)) && !e.err && e.writable && c.t.state != Listen
          && c.t.forward[0].len - c.t.forward[0].sent < GetReceiveBuffer(c.t.socket, e.before)
          && e.sends[0].result.Taken? && e.sends[0].result.n > 0 ::
          SocketStep(c, e).log.advanced > c.log.advanced)
  }

  /**
    After every run without overlapping segments, from a SYN without data on: when
    the byte at remote_seq is queued, its segment is the head and can be moved.
  */
  lemma NextByteMoves(m: Subtraction, p: Packet, mss: u16, scale: nat, isn: u32, dest: u16, socket: int, now: int,
                      b: SendBuffer, es: seq<Event>, stream: seq<u8>)
    requires p.data == [] && socket >= 0 && dest != TLS_PORT && dest != HTTP_PORT
    requires Legal(NewConn(m, p, mss, scale, isn, dest, socket, now, b), es)
    requires PeerRun(NewConn(m, p, mss, scale, isn, dest, socket, now, b), stream, es)
    requires TidyRun(NewConn(m, p, mss, scale, isn, dest, socket, now, b), es)
    ensures var c := Run(NewConn(m, p, mss, scale, isn, dest, socket, now, b), es);
            NextQueued(c) ==> Movable(c)
  {
    var c0 := NewConn(m, p, mss, scale, isn, dest, socket, now, b);
    NewSessionInv(m, p, mss, scale, isn, dest, socket, now, b);
    assert StreamInv(c0, stream) && Tidy(c0.t.remoteSeq, c0.t.forward);
    hide NewConn, Run, Legal, PeerRun, TidyRun, Inv;
    RunKeeps(c0, es);
    RunTidy(c0, stream, es);
    if NextQueued(Run(c0, es)) {
      NextMoves(Run(c0, es), stream);
    }
  }

  lemma NextMoves(c: Conn, stream: seq<u8>)
    requires Inv(c) && StreamInv(c, stream) && Tidy(c.t.remoteSeq, c.t.forward) && c.t.dest != TLS_PORT && NextQueued(c)
    ensures Movable(c)
  {
    HeadIsNext(c);
    assert Sits(c.t.remoteSeq, c.t.forward[0]);
    forall e: SocketEvent |
      && Enabled(c, Ready(e)) && !e.err && e.writable && c.t.state != Listen
      && c.t.forward[0].len - c.t.forward[0].sent < GetReceiveBuffer(c.t.socket, e.before)
      && e.sends[0].result.Taken? && e.sends[0].result.n > 0
      ensures SocketStep(c, e).log.advanced > c.log.advanced
    {
      WritableMoves(c, e);
    }
  }

  lemma WritableMoves(c: Conn, e: SocketEvent)
    requires Inv(c) && c.t.dest != TLS_PORT && c.t.dest != HTTP_PORT && Enabled(c, Ready(e))
    requires !e.err && e.writable && c.t.state != Listen
    requires CanForward(c.t, GetReceiveBuffer(c.t.socket, e.before)) && c.t.forward[0].sent < c.t.forward[0].len
    requires e.sends[0].result.Taken? && e.sends[0].result.n > 0
    ensures SocketStep(c, e).log.advanced > c.log.advanced
  {
    var buffer := GetReceiveBuffer(c.t.socket, e.before);
    FirstSendCounts(c, buffer, e.sends);
    ForwardDrains(c, buffer, e.sends);
    BeforeReadKeeps(c, e);
    hide Forward, Acknowledge, ReadSocket, CanForward, GetReceiveBuffer;
    AcknowledgeQuiet(Forward(c, buffer, e.sends).0, Forward(c, buffer, e.sends).1, e.after, e.ackOk, e.now);
    ReadSocketQuiet(BeforeRead(c, e), e.readable, e.recv, e.tunOk, e.now);
  }
}
