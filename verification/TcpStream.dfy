/**
  Reassembly: what reaches the upstream socket, compared with the byte stream
  the app sent. Holds for sessions outside ports 443 (CONNECT) and 80 (whose
  requests are rewritten).
*/
module TcpStream {
  import opened Words
  import opened TcpQueue
  import opened TcpModel
  import opened TcpAccounting

  /** The stream index of the byte whose sequence number is remote_seq. */
  function StreamPos(c: Conn): int {
    c.log.advanced + c.log.remoteSyn + c.log.remoteFin - 1
  }

  /** The stream index of the byte with sequence number w, for w near remote_seq. */
  function Index(c: Conn, w: u32): int {
    StreamPos(c) + Distance(c.t.remoteSeq, w)
  }

  /** data is what the stream holds from index i on. */
  predicate SliceAt(stream: seq<u8>, i: int, data: seq<u8>) {
    0 <= i && i + |data| <= |stream| && data == stream[i..i + |data|]
  }

  ghost predicate Placed(c: Conn, stream: seq<u8>, s: Segment) {
    && -0x1_0000 < Distance(c.t.remoteSeq, s.seqno) < 0x7FFF_FFFF
    && SliceAt(stream, Index(c, s.seqno), s.data)
  }

  ghost predicate StreamInv(c: Conn, stream: seq<u8>) {
    && c.t.dest != HTTP_PORT
    && c.t.remoteSeq == Mod32(RemotePos(c))
    && AllSound(c.t.forward)
    && c.log.remoteSyn <= 1
    && (c.log.remoteSyn == 0 ==> c.log.advanced == 0)
    && (c.log.remoteFin > 0 ==> c.t.forward == [])
    && Ordered(c.t.remoteSeq, c.t.forward)
    && (forall s | s in c.t.forward :: Placed(c, stream, s))
    && |c.log.up| + c.log.lost == c.log.advanced <= |stream|
    && (c.log.lost == 0 ==> c.log.up == stream[..c.log.advanced])
  }

  /** The lowest position queue_tcp has to order: the queue head, or remote_seq. */
  function WindowBase(c: Conn): int {
    if c.t.forward == [] then 0 else Min(0, Distance(c.t.remoteSeq, c.t.forward[0].seqno))
  }

  /** No difference wraps when the packet's number is compared with remote_seq and the queue. */
  predicate NoneAcross(c: Conn, p: Packet) {
    && Alike(c.t.sub, p.seqno, c.t.remoteSeq)
    && (forall s | s in c.t.forward :: Alike(c.t.sub, s.seqno, p.seqno))
  }

  /**
    A data packet of the peer: it carries the stream's bytes at its sequence
    number, and lies within compare_u32's reach of the window base.
  */
  predicate FromPeer(c: Conn, stream: seq<u8>, p: Packet) {
    p.data != [] ==>
      && SliceAt(stream, Index(c, p.seqno), p.data)
      && -0x7FFF_FFFF < Distance(c.t.remoteSeq, p.seqno) < WindowBase(c) + 0x7FFF_FFFF
      && NoneAcross(c, p)
  }

  lemma DistanceToSelf(w: u32)
    ensures Distance(w, w) == 0
  {
  }

  /** A packet of the peer that is not behind remote_seq can be compared with everything queued. */
  lemma PeerComparable(c: Conn, stream: seq<u8>, p: Packet)
    requires Ordered(c.t.remoteSeq, c.t.forward) && (forall s | s in c.t.forward :: Placed(c, stream, s))
    requires 0 <= Distance(c.t.remoteSeq, p.seqno) < WindowBase(c) + 0x7FFF_FFFF && NoneAcross(c, p)
    ensures Comparable(c.t.sub, c.t.remoteSeq, c.t.forward, p.seqno)
  {
    hide Alike;
    var o := c.t.remoteSeq;
    var q := c.t.forward;
    forall s | s in q ensures -0x7FFF_FFFF < Distance(o, s.seqno) - Distance(o, p.seqno) < 0x7FFF_FFFF {
      var j :| 0 <= j < |q| && q[j] == s;
      assert j > 0 ==> Distance(o, q[0].seqno) < Distance(o, q[j].seqno);
      assert Placed(c, stream, s);
    }
  }

  /** Whatever holds the offered position carries the stream's bytes. */
  lemma OfferedPlaced(c: Conn, stream: seq<u8>, p: Packet, s: Segment)
    requires forall t | t in c.t.forward :: Placed(c, stream, t)
    requires |p.data| < 0x1_0000 && SliceAt(stream, Index(c, p.seqno), p.data)
    requires 0 <= Distance(c.t.remoteSeq, p.seqno) < 0x7FFF_FFFF
    requires s.seqno == p.seqno && Offered(c.t.forward, s, p.seqno, p.psh, p.data)
    ensures Placed(c, stream, s)
  {
    if s.data != p.data {
      var t :| t in c.t.forward && t.seqno == p.seqno && s.data == t.data;
      assert Placed(c, stream, t);
    }
  }

  /** A packet of the peer keeps the queue in order and made of stream slices. */
  lemma QueueKeepsStream(c: Conn, stream: seq<u8>, p: Packet)
    requires StreamInv(c, stream) && FromPeer(c, stream, p) && p.data != [] && |p.data| < 0x1_0000
    requires c.log.remoteFin == 0
    ensures StreamInv(Queue(c, p), stream)
  {
    hide Enqueue, Scan, CompareU32, Alike;
    var o := c.t.remoteSeq;
    DistanceToSelf(o);
    CompareIsPosition(c.t.sub, o, p.seqno, o);
    if CompareU32(c.t.sub, p.seqno, o) >= 0 {
      PeerComparable(c, stream, p);
      EnqueueKeepsOrder(c.t.sub, o, c.t.forward, p.seqno, p.psh, p.data);
      QueuedPlaced(c, stream, p);
    }
  }

  lemma QueuedPlaced(c: Conn, stream: seq<u8>, p: Packet)
    requires |p.data| < 0x1_0000
    requires forall t | t in c.t.forward :: Placed(c, stream, t)
    requires SliceAt(stream, Index(c, p.seqno), p.data) && 0 <= Distance(c.t.remoteSeq, p.seqno) < 0x7FFF_FFFF
    requires forall s | s in Queue(c, p).t.forward && s.seqno != p.seqno :: s in c.t.forward
    requires forall s | s in Queue(c, p).t.forward && s.seqno == p.seqno ::
               Offered(c.t.forward, s, p.seqno, p.psh, p.data)
    ensures forall s | s in Queue(c, p).t.forward :: Placed(Queue(c, p), stream, s)
  {
    var d := Queue(c, p);
    forall s | s in d.t.forward ensures Placed(d, stream, s) {
      if s.seqno == p.seqno {
        OfferedPlaced(c, stream, p, s);
      } else {
        assert s in c.t.forward;
      }
      assert Placed(c, stream, s);
    }
  }

  /** Nothing moved in the queue; at most a SYN or FIN was counted. */
  predicate Quiet(c: Conn, d: Conn) {
    && d.t.dest == c.t.dest && d.t.remoteStart == c.t.remoteStart
    && d.t.forward == c.t.forward
    && d.log.up == c.log.up && d.log.advanced == c.log.advanced && d.log.lost == c.log.lost
    && (|| (d.log.remoteSyn == c.log.remoteSyn && d.log.remoteFin == c.log.remoteFin)
        || (d.log.remoteSyn == c.log.remoteSyn == 1 && d.log.remoteFin == c.log.remoteFin + 1 && c.t.forward == [])
        || (c.log.remoteSyn == 0 && d.log.remoteSyn == 1 && c.log.remoteFin == d.log.remoteFin == 0))
  }

  lemma QuietKeepsStream(c: Conn, d: Conn, stream: seq<u8>)
    requires StreamInv(c, stream) && Quiet(c, d) && d.t.remoteSeq == Mod32(RemotePos(d))
    ensures StreamInv(d, stream)
  {
    var n := StreamPos(d) - StreamPos(c);
    ModAdd(RemotePos(c), n);
    assert d.t.remoteSeq == Mod32(c.t.remoteSeq + n);
    forall s | s in c.t.forward
      ensures Distance(d.t.remoteSeq, s.seqno) == Distance(c.t.remoteSeq, s.seqno) - n
    {
      assert Placed(c, stream, s);
      DistanceShift(c.t.remoteSeq, s.seqno, n);
    }
    forall s | s in d.t.forward ensures Placed(d, stream, s) {
      assert Placed(c, stream, s);
    }
  }

  /** The head that passes the forward guard starts `sent` bytes before remote_seq. */
  lemma HeadPosition(c: Conn)
    requires c.t.forward != [] && Mod32(c.t.forward[0].seqno + c.t.forward[0].sent) == c.t.remoteSeq
    ensures Distance(c.t.remoteSeq, c.t.forward[0].seqno) + c.t.forward[0].sent == 0
  {
    var h := c.t.forward[0];
    DistanceOfPositions(h.seqno + h.sent, h.seqno);
  }

  lemma SliceOfSlice(s: seq<u8>, i: nat, j: nat, a: nat, b: nat)
    requires i <= j <= |s| && a <= b <= j - i
    ensures s[i..j][a..b] == s[i + a..i + b]
  {
    assert forall k | 0 <= k < b - a :: s[i..j][a..b][k] == s[i + a + k] == s[i + a..i + b][k];
  }

  /** The bytes a send hands over are the stream's next ones. */
  lemma HeadBytes(c: Conn, stream: seq<u8>, n: nat)
    requires StreamInv(c, stream) && c.t.forward != []
    requires Distance(c.t.remoteSeq, c.t.forward[0].seqno) + c.t.forward[0].sent == 0
    requires c.t.forward[0].sent + n <= c.t.forward[0].len
    ensures var h := c.t.forward[0];
            && h.len <= |h.data| && c.log.advanced + n <= |stream|
            && h.data[h.sent..h.len][..n] == stream[c.log.advanced..c.log.advanced + n]
            && c.log.remoteSyn == 1 && c.log.remoteFin == 0
  {
    var h := c.t.forward[0];
    assert Placed(c, stream, h) && Sound(h);
    assert Index(c, h.seqno) == StreamPos(c) - h.sent;
    assert c.log.remoteSyn == 1;
    var i := Index(c, h.seqno);
    assert h.data == stream[i..i + |h.data|];
    SliceOfSlice(stream, i, i + |h.data|, h.sent, h.sent + n);
    assert h.data[h.sent..h.len][..n] == h.data[h.sent..h.sent + n];
  }

  /** remote_seq moves with the count. */
  lemma SendMovesRemote(c: Conn, s: SendStep)
    requires c.t.forward != [] && Sound(c.t.forward[0]) && c.t.remoteSeq == Mod32(RemotePos(c))
    requires Mod32(c.t.forward[0].seqno + c.t.forward[0].sent) == c.t.remoteSeq
    ensures var d := SendOnce(c, s);
            var n := d.log.advanced - c.log.advanced;
            && 0 <= n <= c.t.forward[0].len - c.t.forward[0].sent
            && d.t.remoteSeq == Mod32(c.t.remoteSeq + n) && d.t.remoteSeq == Mod32(RemotePos(d))
            && d.t.forward == (if c.t.forward[0].sent + n == c.t.forward[0].len then c.t.forward[1..]
                               else [c.t.forward[0].(sent := c.t.forward[0].sent + n)] + c.t.forward[1..])
  {
    var n := SendOnce(c, s).log.advanced - c.log.advanced;
    ModAdd(c.t.forward[0].seqno + c.t.forward[0].sent, n);
    ModAdd(RemotePos(c), n);
  }

  /** The log after a send outside port 80: the head's next bytes, or the whole rest lost. */
  lemma SendLog(c: Conn, s: SendStep)
    requires c.t.forward != [] && Sound(c.t.forward[0]) && c.t.dest != HTTP_PORT
    ensures var d := SendOnce(c, s);
            var h := c.t.forward[0];
            var n := d.log.advanced - c.log.advanced;
            if s.result.Failed? then
              n == h.len - h.sent && d.log.up == c.log.up && d.log.lost == c.log.lost + n
            else
              0 <= n <= h.len - h.sent && d.log.up == c.log.up + h.data[h.sent..h.len][..n] && d.log.lost == c.log.lost
  {
  }

  /** One send extends the upstream bytes by the stream's next bytes, or loses exactly what it counts. */
  lemma SendKeepsStream(c: Conn, stream: seq<u8>, s: SendStep, buffer: int)
    requires StreamInv(c, stream) && CanForward(c.t, buffer)
    ensures StreamInv(SendOnce(c, s), stream)
    ensures s.result.Taken? ==> SendOnce(c, s).log.lost == c.log.lost
    ensures s.result.Failed? ==> SendOnce(c, s).log.lost == c.log.lost + c.t.forward[0].len - c.t.forward[0].sent
  {
    var d := SendOnce(c, s);
    var n := d.log.advanced - c.log.advanced;
    assert Sound(c.t.forward[0]);
    HeadPosition(c);
    SendMovesRemote(c, s);
    SendLog(c, s);
    HeadBytes(c, stream, n);
    assert d.t.forward == c.t.forward[1..]
        || d.t.forward == [c.t.forward[0].(sent := c.t.forward[0].sent + n)] + c.t.forward[1..];
    assert d.t.dest == c.t.dest && d.t.remoteStart == c.t.remoteStart;
    hide SendOnce, SendHead, Payload, SliceAt, Placed, Ordered, AllSound, Mod32, Distance;
    ShiftedQueue(c, d, stream, n);
    assert stream[..c.log.advanced] + stream[c.log.advanced..c.log.advanced + n] == stream[..d.log.advanced];
  }

  /** After n head bytes left, what remains is still placed and in order. */
  lemma ShiftedQueue(c: Conn, d: Conn, stream: seq<u8>, n: nat)
    requires c.t.forward != [] && n < 0x1_0000
    requires AllSound(c.t.forward) && Ordered(c.t.remoteSeq, c.t.forward)
    requires forall s | s in c.t.forward :: Placed(c, stream, s)
    requires d.t.remoteSeq == Mod32(c.t.remoteSeq + n) && StreamPos(d) == StreamPos(c) + n
    requires Distance(c.t.remoteSeq, c.t.forward[0].seqno) + c.t.forward[0].sent == 0
    requires c.t.forward[0].sent + n <= c.t.forward[0].len
    requires || d.t.forward == c.t.forward[1..]
             || d.t.forward == [c.t.forward[0].(sent := c.t.forward[0].sent + n)] + c.t.forward[1..]
    ensures AllSound(d.t.forward) && Ordered(d.t.remoteSeq, d.t.forward)
    ensures forall s | s in d.t.forward :: Placed(d, stream, s)
  {
    var q := c.t.forward;
    forall i | 0 <= i < |q|
      ensures Distance(d.t.remoteSeq, q[i].seqno) == Distance(c.t.remoteSeq, q[i].seqno) - n
      ensures Distance(d.t.remoteSeq, q[i].seqno) > -0x1_0000
    {
      assert Placed(c, stream, q[i]);
      DistanceShift(c.t.remoteSeq, q[i].seqno, n);
      assert i > 0 ==> Distance(c.t.remoteSeq, q[0].seqno) < Distance(c.t.remoteSeq, q[i].seqno);
    }
    var k := if d.t.forward == q[1..] then 1 else 0;
    forall i | 0 <= i < |d.t.forward|
      ensures d.t.forward[i].seqno == q[i + k].seqno && Sound(d.t.forward[i]) && Placed(d, stream, d.t.forward[i])
    {
      assert q[i + k] in q && Placed(c, stream, q[i + k]) && Sound(q[i + k]);
    }
  }

  lemma {:induction false} ForwardKeepsStream(c: Conn, stream: seq<u8>, buffer: int, sends: seq<SendStep>)
    requires StreamInv(c, stream) && |sends| >= |c.t.forward|
    ensures StreamInv(Forward(c, buffer, sends).0, stream)
    decreases |c.t.forward|
  {
    if !CanForward(c.t, buffer) {
    } else {
      var c1 := SendOnce(c, sends[0]);
      SendKeepsStream(c, stream, sends[0], buffer);
      if |c1.t.forward| < |c.t.forward| {
        ForwardKeepsStream(c1, stream, buffer - (c1.log.advanced - c.log.advanced), sends[1..]);
      }
    }
  }

  // ---------- when bytes are lost ----------

  /** Some send call the forward loop makes fails while bytes of its head are left. */
  predicate Fails(c: Conn, buffer: int, sends: seq<SendStep>)
    requires AllSound(c.t.forward) && |sends| >= |c.t.forward|
    decreases |c.t.forward|
  {
    CanForward(c.t, buffer)
    && var c1 := SendOnce(c, sends[0]);
       || (sends[0].result.Failed? && c.t.forward[0].sent < c.t.forward[0].len)
       || (|c1.t.forward| < |c.t.forward| && Fails(c1, buffer - (c1.log.advanced - c.log.advanced), sends[1..]))
  }

  /** The loop loses bytes exactly when one of its send calls fails. */
  lemma {:induction false} ForwardLosesIff(c: Conn, buffer: int, sends: seq<SendStep>)
    requires AllSound(c.t.forward) && |sends| >= |c.t.forward|
    ensures Forward(c, buffer, sends).0.log.lost >= c.log.lost
    ensures Forward(c, buffer, sends).0.log.lost == c.log.lost <==> !Fails(c, buffer, sends)
    decreases |c.t.forward|
  {
    if !CanForward(c.t, buffer) {
    } else {
      var c1 := SendOnce(c, sends[0]);
      assert Sound(c.t.forward[0]);
      if |c1.t.forward| < |c.t.forward| {
        ForwardLosesIff(c1, buffer - (c1.log.advanced - c.log.advanced), sends[1..]);
      }
    }
  }

  /** A socket event in which a send call fails. */
  predicate FailsIn(c: Conn, e: Event)
    requires AllSound(c.t.forward) && Enabled(c, e)
  {
    && e.Ready? && !e.event.err && e.event.writable && c.t.state != Listen
    && Fails(c, GetReceiveBuffer(c.t.socket, e.event.before), e.event.sends)
  }

  /** What was lost only grows, and grows exactly in an event in which a send call fails. */
  predicate LosesIff(c: Conn, d: Conn, fails: bool) {
    d.log.lost >= c.log.lost && (d.log.lost == c.log.lost <==> !fails)
  }

  // ---------- the quiet handlers ----------

  lemma WriteRstQuiet(c: Conn, ok: bool)
    requires Inv(c) && c.t.dest != TLS_PORT
    ensures Quiet(c, WriteRst(c, ok))
  {
  }

  lemma HandleCurrentQuiet(c: Conn, p: Packet, ok: bool)
    requires Accounted(c)
    ensures Quiet(c, HandleCurrent(c, p, ok))
  {
  }

  lemma HandleFlagsQuiet(c: Conn, p: Packet, ok: bool)
    requires Inv(c) && c.t.dest != TLS_PORT
    ensures Quiet(c, HandleFlags(c, p, ok))
  {
    HandleCurrentQuiet(c, p, ok);
    WriteRstQuiet(c, ok);
  }

  lemma AcknowledgeQuiet(c: Conn, fwd: bool, after: SendBuffer, ok: bool, now: int)
    requires Drained(c, fwd) && c.t.dest != TLS_PORT
    ensures Quiet(c, Acknowledge(c, fwd, after, ok, now))
  {
  }

  lemma ReadEofQuiet(c: Conn, ok: bool)
    requires Inv(c) && c.t.dest != TLS_PORT
    ensures Quiet(c, ReadEof(c, ok))
  {
    hide AllSound, Build;
    WriteRstQuiet(c, ok);
  }

  lemma ReadSocketQuiet(c: Conn, readable: bool, recv: RecvResult, ok: bool, now: int)
    requires Inv(c) && c.t.dest != TLS_PORT
    ensures Quiet(c, ReadSocket(c, readable, recv, ok, now))
  {
    var c1 := c.(t := c.t.(time := now));
    assert Inv(c1);
    hide AllSound, Build, GetSendWindow, WriteRst, ReadEof, Inv;
    WriteRstQuiet(c1, ok);
    ReadEofQuiet(c1, ok);
  }

  lemma MonitorQuiet(c: Conn, b: SendBuffer, ms: int, ok: bool, ctlOk: bool)
    requires Inv(c) && c.t.dest != TLS_PORT
    ensures Quiet(c, Monitor(c, b, ms, ok, ctlOk))
  {
    hide AllSound, Build, GetReceiveWindow, GetSendWindow, GetTcpTimeout;
  }

  lemma CheckSessionQuiet(c: Conn, now: int, sessions: int, maxSessions: int, ok: bool)
    requires Inv(c) && c.t.dest != TLS_PORT && maxSessions > 0
    ensures Quiet(c, CheckSession(c, now, sessions, maxSessions, ok).0)
  {
    hide AllSound, Build, GetReceiveWindow, GetSendWindow, GetTcpTimeout;
  }

  // ---------- every step ----------

  lemma HandleOpenKeepsStream(c: Conn, stream: seq<u8>, p: Packet, ok: bool)
    requires Inv(c) && StreamInv(c, stream) && FromPeer(c, stream, p) && c.t.dest != TLS_PORT
    requires |p.data| < 0x1_0000 && c.t.state != Closing && c.t.state != Close
    ensures StreamInv(HandleOpen(c, p, ok), stream) && HandleOpen(c, p, ok).log.lost == c.log.lost
  {
    HandleOpenKeeps(c, p, ok);
    if p.data != [] && (c.t.socket < 0 || c.t.state == CloseWait) {
      WriteRstQuiet(c, ok);
      QuietKeepsStream(c, HandleOpen(c, p, ok), stream);
    } else if p.data != [] {
      QueueKeepsStream(c, stream, p);
      QueueKeeps(c, p);
      HandleFlagsQuiet(Queue(c, p), p, ok);
      QuietKeepsStream(Queue(c, p), HandleOpen(c, p, ok), stream);
    } else {
      HandleFlagsQuiet(c, p, ok);
      QuietKeepsStream(c, HandleOpen(c, p, ok), stream);
    }
  }

  lemma StampKeepsStream(c: Conn, stream: seq<u8>, p: Packet, now: int)
    requires Inv(c) && StreamInv(c, stream) && FromPeer(c, stream, p)
    ensures Inv(Stamp(c, p, now)) && StreamInv(Stamp(c, p, now), stream) && FromPeer(Stamp(c, p, now), stream, p)
  {
    QuietKeepsStream(c, Stamp(c, p, now), stream);
  }

  lemma ArriveKeepsStream(c: Conn, stream: seq<u8>, p: Packet, now: int, sendOk: bool, ok: bool)
    requires Inv(c) && StreamInv(c, stream) && FromPeer(c, stream, p) && c.t.dest != TLS_PORT
    requires |p.data| < 0x1_0000 && (sendOk ==> c.t.socket >= 0)
    ensures StreamInv(HandlePacket(c, p, now, sendOk, ok), stream)
    ensures HandlePacket(c, p, now, sendOk, ok).log.lost == c.log.lost
  {
    if p.urg {
    } else if c.t.state == Closing || c.t.state == Close {
      WriteRstQuiet(c, ok);
      WriteRstKeeps(c, ok);
      QuietKeepsStream(c, WriteRst(c, ok), stream);
    } else {
      StampKeepsStream(c, stream, p, now);
      HandleOpenKeepsStream(Stamp(c, p, now), stream, p, ok);
    }
  }

  lemma BeforeReadKeepsStream(c: Conn, stream: seq<u8>, e: SocketEvent)
    requires Inv(c) && StreamInv(c, stream) && c.t.dest != TLS_PORT
    requires c.t.socket >= 0 && c.t.state != Listen && |e.sends| >= |c.t.forward|
    ensures StreamInv(BeforeRead(c, e), stream)
    ensures LosesIff(c, BeforeRead(c, e), e.writable && Fails(c, GetReceiveBuffer(c.t.socket, e.before), e.sends))
  {
    var buffer := GetReceiveBuffer(c.t.socket, e.before);
    BeforeReadKeeps(c, e);
    if e.writable {
      ForwardKeepsStream(c, stream, buffer, e.sends);
      ForwardLosesIff(c, buffer, e.sends);
      ForwardDrains(c, buffer, e.sends);
      var f := Forward(c, buffer, e.sends);
      AcknowledgeQuiet(f.0, f.1, e.after, e.ackOk, e.now);
      QuietKeepsStream(f.0, BeforeRead(c, e), stream);
    } else {
      AcknowledgeQuiet(c, false, e.after, e.ackOk, e.now);
      QuietKeepsStream(c, BeforeRead(c, e), stream);
    }
  }

  lemma EarlySocketQuiet(c: Conn, e: SocketEvent)
    requires Inv(c) && c.t.dest != TLS_PORT && |e.sends| >= |c.t.forward|
    requires e.err || c.t.state == Listen
    ensures Quiet(c, SocketStep(c, e))
  {
  }

  lemma SocketStepKeepsStream(c: Conn, stream: seq<u8>, e: SocketEvent)
    requires Inv(c) && StreamInv(c, stream) && c.t.dest != TLS_PORT
    requires Enabled(c, Ready(e))
    ensures StreamInv(SocketStep(c, e), stream)
    ensures LosesIff(c, SocketStep(c, e), FailsIn(c, Ready(e)))
  {
    SocketStepKeeps(c, e);
    if e.err || c.t.state == Listen {
      EarlySocketQuiet(c, e);
      QuietKeepsStream(c, SocketStep(c, e), stream);
    } else {
      BeforeReadKeeps(c, e);
      BeforeReadKeepsStream(c, stream, e);
      ReadSocketQuiet(BeforeRead(c, e), e.readable, e.recv, e.tunOk, e.now);
      QuietKeepsStream(BeforeRead(c, e), SocketStep(c, e), stream);
    }
  }

  lemma StepKeepsStream(c: Conn, stream: seq<u8>, e: Event)
    requires Inv(c) && StreamInv(c, stream) && Enabled(c, e) && c.t.dest != TLS_PORT
    requires e.Arrive? ==> FromPeer(c, stream, e.packet)
    ensures StreamInv(Step(c, e), stream)
    ensures LosesIff(c, Step(c, e), FailsIn(c, e))
  {
    StepKeeps(c, e);
    match e
    case Arrive(p, now, sendOk, ok) => ArriveKeepsStream(c, stream, p, now, sendOk, ok);
    case Ready(ev) => SocketStepKeepsStream(c, stream, ev);
    case Watch(b, ms, ok, ctlOk) =>
      MonitorQuiet(c, b, ms, ok, ctlOk);
      QuietKeepsStream(c, Step(c, e), stream);
    case Tick(now, sessions, maxSessions, ok) =>
      CheckSessionQuiet(c, now, sessions, maxSessions, ok);
      QuietKeepsStream(c, Step(c, e), stream);
  }

  // ---------- every run ----------

  /** Every data packet of the run comes from the peer. */
  predicate PeerRun(c: Conn, stream: seq<u8>, es: seq<Event>)
    requires Legal(c, es)
    decreases |es|
  {
    es == [] || ((es[0].Arrive? ==> FromPeer(c, stream, es[0].packet)) && PeerRun(Step(c, es[0]), stream, es[1..]))
  }

  /** Some send call made in the run fails while bytes of its segment are left. */
  predicate FailsInRun(c: Conn, es: seq<Event>)
    requires Legal(c, es)
    decreases |es|
  {
    es != [] && (FailsIn(c, es[0]) || FailsInRun(Step(c, es[0]), es[1..]))
  }

  lemma {:induction false} RunKeepsStream(c: Conn, stream: seq<u8>, es: seq<Event>)
    requires Inv(c) && StreamInv(c, stream) && c.t.dest != TLS_PORT && Legal(c, es) && PeerRun(c, stream, es)
    ensures StreamInv(Run(c, es), stream)
    ensures LosesIff(c, Run(c, es), FailsInRun(c, es))
    decreases |es|
  {
    if es == [] {
    } else {
      StepKeeps(c, es[0]);
      StepKeepsStream(c, stream, es[0]);
      hide Step, StreamInv, Inv, FailsIn;
      RunKeepsStream(Step(c, es[0]), stream, es[1..]);
    }
  }

  /**
    Reassembly. Over every interleaving of the peer's segments, partial sends
    and timers, a session opened by a SYN without data hands upstream the
    peer's stream from its first byte up to remote_seq, without gap, repeat or
    reordering, if and only if no send call failed while bytes of its segment
    were left.
  */
  lemma Reassembly(m: Subtraction, p: Packet, mss: u16, scale: nat, isn: u32, dest: u16, socket: int, now: int,
                   b: SendBuffer, es: seq<Event>, stream: seq<u8>)
    requires p.data == [] && socket >= 0 && dest != TLS_PORT && dest != HTTP_PORT
    requires Legal(NewConn(m, p, mss, scale, isn, dest, socket, now, b), es)
    requires PeerRun(NewConn(m, p, mss, scale, isn, dest, socket, now, b), stream, es)
    ensures var c := Run(NewConn(m, p, mss, scale, isn, dest, socket, now, b), es);
            && c.t.remoteSeq == Mod32(p.seqno + c.log.remoteSyn + c.log.advanced + c.log.remoteFin)
            && c.log.advanced <= |stream|
            && (c.log.up == stream[..c.log.advanced]
                <==> !FailsInRun(NewConn(m, p, mss, scale, isn, dest, socket, now, b), es))
            && Ordered(c.t.remoteSeq, c.t.forward)
            && (forall s | s in c.t.forward :: SliceAt(stream, Index(c, s.seqno), s.data))
  {
    hide Run, Legal, PeerRun, FailsInRun;
    var c := NewConn(m, p, mss, scale, isn, dest, socket, now, b);
    NewSessionInv(m, p, mss, scale, isn, dest, socket, now, b);
    RunKeeps(c, es);
    RunKeepsStart(c, es);
    RunKeepsStream(c, stream, es);
    forall s | s in Run(c, es).t.forward ensures SliceAt(stream, Index(Run(c, es), s.seqno), s.data) {
      assert Placed(Run(c, es), stream, s);
    }
  }

  /**
    And a failed send does lose: the rest of the head segment never reaches the
    socket, remote_seq passes it, and the app is sent an acknowledgement for it.
  */
  lemma FailedSendIsAcknowledged(c: Conn, e: SocketEvent)
    requires Inv(c) && c.t.dest != TLS_PORT && c.t.state == Established && c.t.socket >= 0
    requires |c.t.forward| == 1 && CanForward(c.t, GetReceiveBuffer(c.t.socket, e.before))
    requires |e.sends| >= 1 && e.sends[0].result == Failed
    requires !e.err && e.writable && !e.readable && e.ackOk
    ensures var d := SocketStep(c, e);
            var h := c.t.forward[0];
            && d.log.up == c.log.up && d.log.lost == c.log.lost + (h.len - h.sent)
            && d.t.state == Established && d.t.forward == []
            && |d.log.tun| == |c.log.tun| + 1 && d.log.tun[|c.log.tun|].ack
            && d.log.tun[|c.log.tun|].ackno == Mod32(h.seqno + h.len)
  {
    var f := SendOnce(c, e.sends[0]);
    assert Sound(c.t.forward[0]);
    assert f.t.forward == [];
    assert Forward(c, GetReceiveBuffer(c.t.socket, e.before), e.sends) == (f, true);
  }
}
