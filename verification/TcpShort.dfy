/**
  Reassembly without any order of the queue: for streams that fit the sequence
  space, whatever compare_u32 answers, over both kinds of subtraction, and with
  packets of the stream arriving at any time.
*/
module TcpShort {
  import opened Words
  import opened TcpQueue
  import opened TcpModel
  import opened TcpAccounting
  import opened TcpStream

  /** The longest stream whose bytes, SYN and FIN have different numbers. */
  const MAX_STREAM := 0xFFFF_FFFE

  /** The stream index of the byte numbered w, for a peer whose SYN has the number start. */
  function Offset(start: u32, w: u32): u32 {
    Mod32(w - (start + 1))
  }

  /** A data packet carries the stream's bytes at its own number. */
  predicate Carries(start: u32, stream: seq<u8>, p: Packet) {
    p.data != [] ==> SliceAt(stream, Offset(start, p.seqno), p.data)
  }

  ghost predicate InPlace(start: u32, stream: seq<u8>, s: Segment) {
    Sound(s) && SliceAt(stream, Offset(start, s.seqno), s.data)
  }

  ghost predicate ShortInv(c: Conn, stream: seq<u8>) {
    && c.t.dest != HTTP_PORT
    && c.t.remoteSeq == Mod32(RemotePos(c))
    && c.log.remoteSyn <= 1
    && (c.log.remoteSyn == 0 ==> c.log.advanced == 0)
    && (c.log.remoteFin > 0 ==> c.t.forward == [])
    && (forall s | s in c.t.forward :: InPlace(c.t.remoteStart, stream, s))
    && |c.log.up| + c.log.lost == c.log.advanced <= |stream| <= MAX_STREAM
    && (c.log.lost == 0 ==> c.log.up == stream[..c.log.advanced])
  }

  /** Whatever the comparison answers, queue_tcp adds the offered segment or its bytes and nothing else. */
  lemma QueuedFrom(m: Subtraction, q: seq<Segment>, remoteSeq: u32, seqno: u32, psh: bool, data: seq<u8>, s: Segment)
    requires |data| < 0x1_0000 && s in QueueTcp(m, q, remoteSeq, seqno, psh, data)
    ensures s in q || (s.seqno == seqno && Offered(q, s, seqno, psh, data))
  {
    var i := Scan(m, q, seqno);
    if i < |q| {
      SameWord(m, q[i].seqno, seqno);
    }
    hide Scan, CompareU32;
  }

  lemma QueueKeepsShort(c: Conn, stream: seq<u8>, p: Packet)
    requires ShortInv(c, stream) && Carries(c.t.remoteStart, stream, p) && p.data != [] && |p.data| < 0x1_0000
    requires c.log.remoteFin == 0
    ensures ShortInv(Queue(c, p), stream)
  {
    forall s | s in Queue(c, p).t.forward
      ensures InPlace(c.t.remoteStart, stream, s)
    {
      QueuedFrom(c.t.sub, c.t.forward, c.t.remoteSeq, p.seqno, p.psh, p.data, s);
      hide QueueTcp, Offset, SliceAt;
      if s !in c.t.forward {
        OfferedInPlace(c, stream, p, s);
      }
    }
    hide QueueTcp;
  }

  lemma OfferedInPlace(c: Conn, stream: seq<u8>, p: Packet, s: Segment)
    requires forall t | t in c.t.forward :: InPlace(c.t.remoteStart, stream, t)
    requires |p.data| < 0x1_0000 && SliceAt(stream, Offset(c.t.remoteStart, p.seqno), p.data)
    requires Offered(c.t.forward, s, p.seqno, p.psh, p.data)
    requires s.seqno == p.seqno && s in Queue(c, p).t.forward
    ensures InPlace(c.t.remoteStart, stream, s)
  {
  }

  lemma WordAtOffset(start: u32, w: u32)
    ensures Mod32(start + 1 + Offset(start, w)) == w
  {
    ModAdd(w - (start + 1), start + 1);
  }

  lemma NearbyPositions(x: int, y: int)
    requires Mod32(x) == Mod32(y) && -0x1_0000_0000 < x - y < 0x1_0000_0000
    ensures x == y
  {
    ModOfDifference(x, y);
  }

  /** The head that passes the forward guard starts with the stream's next byte, however the numbers wrapped. */
  lemma HeadIsNextByte(c: Conn, stream: seq<u8>)
    requires ShortInv(c, stream) && c.t.forward != []
    requires Mod32(c.t.forward[0].seqno + c.t.forward[0].sent) == c.t.remoteSeq
    ensures Offset(c.t.remoteStart, c.t.forward[0].seqno) + c.t.forward[0].sent == c.log.advanced
    ensures c.log.remoteSyn == 1 && c.log.remoteFin == 0
  {
    var h := c.t.forward[0];
    assert InPlace(c.t.remoteStart, stream, h);
    var off := Offset(c.t.remoteStart, h.seqno);
    hide Offset, Mod32;
    WordAtOffset(c.t.remoteStart, h.seqno);
    ModAdd(c.t.remoteStart + 1 + off, h.sent);
    NearbyPositions(c.t.remoteStart + 1 + off + h.sent, RemotePos(c));
  }

  /** The bytes a send hands over are the stream's next ones. */
  lemma NextBytes(c: Conn, stream: seq<u8>, n: nat)
    requires ShortInv(c, stream) && c.t.forward != []
    requires Mod32(c.t.forward[0].seqno + c.t.forward[0].sent) == c.t.remoteSeq
    requires c.t.forward[0].sent + n <= c.t.forward[0].len
    ensures var h := c.t.forward[0];
            && h.len <= |h.data| && c.log.advanced + n <= |stream|
            && h.data[h.sent..h.len][..n] == stream[c.log.advanced..c.log.advanced + n]
  {
    var h := c.t.forward[0];
    HeadIsNextByte(c, stream);
    assert InPlace(c.t.remoteStart, stream, h);
    var i := Offset(c.t.remoteStart, h.seqno);
    hide Offset, Mod32;
    assert h.data == stream[i..i + |h.data|];
    SliceOfSlice(stream, i, i + |h.data|, h.sent, h.sent + n);
    assert h.data[h.sent..h.len][..n] == h.data[h.sent..h.sent + n];
  }

  lemma SendKeepsShort(c: Conn, stream: seq<u8>, s: SendStep, buffer: int)
    requires ShortInv(c, stream) && CanForward(c.t, buffer) && Sound(c.t.forward[0])
    ensures ShortInv(SendOnce(c, s), stream)
  {
    var d := SendOnce(c, s);
    var n := d.log.advanced - c.log.advanced;
    assert InPlace(c.t.remoteStart, stream, c.t.forward[0]);
    SendMovesRemote(c, s);
    SendLog(c, s);
    NextBytes(c, stream, n);
    HeadIsNextByte(c, stream);
    RestInPlace(c.t.remoteStart, stream, c.t.forward, c.t.forward[0].sent + n);
    assert d.t.dest == c.t.dest && d.t.remoteStart == c.t.remoteStart;
    assert stream[..c.log.advanced] + stream[c.log.advanced..c.log.advanced + n] == stream[..c.log.advanced + n];
    hide SendOnce, InPlace, Mod32, Offset;
  }

  lemma RestInPlace(start: u32, stream: seq<u8>, q: seq<Segment>, sent: nat)
    requires q != [] && sent <= q[0].len && forall s | s in q :: InPlace(start, stream, s)
    ensures forall s | s in q[1..] :: InPlace(start, stream, s)
    ensures forall s | s in [q[0].(sent := sent)] + q[1..] :: InPlace(start, stream, s)
  {
    assert InPlace(start, stream, q[0]);
    assert forall s | s in q[1..] :: s in q;
  }

  lemma {:induction false} ForwardKeepsShort(c: Conn, stream: seq<u8>, buffer: int, sends: seq<SendStep>)
    requires ShortInv(c, stream) && AllSound(c.t.forward) && |sends| >= |c.t.forward|
    ensures ShortInv(Forward(c, buffer, sends).0, stream)
    decreases |c.t.forward|
  {
    if !CanForward(c.t, buffer) {
    } else {
      var c1 := SendOnce(c, sends[0]);
      assert Sound(c.t.forward[0]);
      SendKeepsShort(c, stream, sends[0], buffer);
      SendCounts(c, buffer, sends[0]);
      hide SendOnce, ShortInv, AllSound, CanForward;
      if |c1.t.forward| < |c.t.forward| {
        ForwardKeepsShort(c1, stream, buffer - (c1.log.advanced - c.log.advanced), sends[1..]);
      }
    }
  }

  lemma QuietKeepsShort(c: Conn, d: Conn, stream: seq<u8>)
    requires ShortInv(c, stream) && Quiet(c, d) && d.t.remoteSeq == Mod32(RemotePos(d))
    ensures ShortInv(d, stream)
  {
    hide InPlace, Mod32;
  }

  // ---------- every step ----------

  lemma HandleOpenKeepsShort(c: Conn, stream: seq<u8>, p: Packet, ok: bool)
    requires Inv(c) && ShortInv(c, stream) && Carries(c.t.remoteStart, stream, p) && c.t.dest != TLS_PORT
    requires |p.data| < 0x1_0000 && c.t.state != Closing && c.t.state != Close
    ensures ShortInv(HandleOpen(c, p, ok), stream) && HandleOpen(c, p, ok).log.lost == c.log.lost
  {
    HandleOpenKeeps(c, p, ok);
    hide HandleFlags, WriteRst, ShortInv, Carries;
    if p.data != [] && (c.t.socket < 0 || c.t.state == CloseWait) {
      WriteRstQuiet(c, ok);
      QuietKeepsShort(c, HandleOpen(c, p, ok), stream);
    } else if p.data != [] {
      QueueKeepsShort(c, stream, p);
      QueueKeeps(c, p);
      HandleFlagsQuiet(Queue(c, p), p, ok);
      QuietKeepsShort(Queue(c, p), HandleOpen(c, p, ok), stream);
    } else {
      HandleFlagsQuiet(c, p, ok);
      QuietKeepsShort(c, HandleOpen(c, p, ok), stream);
    }
  }

  lemma ArriveKeepsShort(c: Conn, stream: seq<u8>, p: Packet, now: int, sendOk: bool, ok: bool)
    requires Inv(c) && ShortInv(c, stream) && Carries(c.t.remoteStart, stream, p) && c.t.dest != TLS_PORT
    requires |p.data| < 0x1_0000 && (sendOk ==> c.t.socket >= 0)
    ensures ShortInv(HandlePacket(c, p, now, sendOk, ok), stream)
    ensures HandlePacket(c, p, now, sendOk, ok).log.lost == c.log.lost
  {
    if p.urg {
    } else if c.t.state == Closing || c.t.state == Close {
      WriteRstQuiet(c, ok);
      WriteRstKeeps(c, ok);
      hide WriteRst, ShortInv, Carries;
      QuietKeepsShort(c, WriteRst(c, ok), stream);
    } else {
      assert Inv(Stamp(c, p, now)) && ShortInv(Stamp(c, p, now), stream);
      hide HandleOpen, ShortInv, Carries;
      HandleOpenKeepsShort(Stamp(c, p, now), stream, p, ok);
    }
  }

  lemma BeforeReadKeepsShort(c: Conn, stream: seq<u8>, e: SocketEvent)
    requires Inv(c) && ShortInv(c, stream) && c.t.dest != TLS_PORT
    requires c.t.socket >= 0 && c.t.state != Listen && |e.sends| >= |c.t.forward|
    ensures ShortInv(BeforeRead(c, e), stream)
    ensures LosesIff(c, BeforeRead(c, e), e.writable && Fails(c, GetReceiveBuffer(c.t.socket, e.before), e.sends))
  {
    var buffer := GetReceiveBuffer(c.t.socket, e.before);
    BeforeReadKeeps(c, e);
    hide ShortInv, Acknowledge, Forward, Fails;
    if e.writable {
      ForwardKeepsShort(c, stream, buffer, e.sends);
      ForwardLosesIff(c, buffer, e.sends);
      ForwardDrains(c, buffer, e.sends);
      var f := Forward(c, buffer, e.sends);
      AcknowledgeQuiet(f.0, f.1, e.after, e.ackOk, e.now);
      QuietKeepsShort(f.0, BeforeRead(c, e), stream);
    } else {
      AcknowledgeQuiet(c, false, e.after, e.ackOk, e.now);
      QuietKeepsShort(c, BeforeRead(c, e), stream);
    }
  }

  lemma SocketStepKeepsShort(c: Conn, stream: seq<u8>, e: SocketEvent)
    requires Inv(c) && ShortInv(c, stream) && c.t.dest != TLS_PORT && Enabled(c, Ready(e))
    ensures ShortInv(SocketStep(c, e), stream)
    ensures LosesIff(c, SocketStep(c, e), FailsIn(c, Ready(e)))
  {
    SocketStepKeeps(c, e);
    hide ShortInv, BeforeRead, ReadSocket, Fails;
    if e.err || c.t.state == Listen {
      EarlySocketQuiet(c, e);
      QuietKeepsShort(c, SocketStep(c, e), stream);
    } else {
      BeforeReadKeeps(c, e);
      BeforeReadKeepsShort(c, stream, e);
      ReadSocketQuiet(BeforeRead(c, e), e.readable, e.recv, e.tunOk, e.now);
      QuietKeepsShort(BeforeRead(c, e), SocketStep(c, e), stream);
    }
  }

  lemma StepKeepsShort(c: Conn, stream: seq<u8>, e: Event)
    requires Inv(c) && ShortInv(c, stream) && Enabled(c, e) && c.t.dest != TLS_PORT
    requires e.Arrive? ==> Carries(c.t.remoteStart, stream, e.packet)
    ensures ShortInv(Step(c, e), stream)
    ensures LosesIff(c, Step(c, e), FailsIn(c, e))
  {
    StepKeeps(c, e);
    hide ShortInv, HandlePacket, SocketStep, Monitor, CheckSession, Fails, Carries;
    match e
    case Arrive(p, now, sendOk, ok) => ArriveKeepsShort(c, stream, p, now, sendOk, ok);
    case Ready(ev) => SocketStepKeepsShort(c, stream, ev);
    case Watch(b, ms, ok, ctlOk) =>
      MonitorQuiet(c, b, ms, ok, ctlOk);
      QuietKeepsShort(c, Step(c, e), stream);
    case Tick(now, sessions, maxSessions, ok) =>
      CheckSessionQuiet(c, now, sessions, maxSessions, ok);
      QuietKeepsShort(c, Step(c, e), stream);
  }

  // ---------- every run ----------

  /** Every data packet of the run carries the stream's bytes at its number, whenever it arrives. */
  predicate AllCarry(start: u32, stream: seq<u8>, es: seq<Event>) {
    forall e | e in es && e.Arrive? :: Carries(start, stream, e.packet)
  }

  lemma {:induction false} RunKeepsShort(c: Conn, stream: seq<u8>, es: seq<Event>)
    requires Inv(c) && ShortInv(c, stream) && c.t.dest != TLS_PORT && Legal(c, es)
    requires AllCarry(c.t.remoteStart, stream, es)
    ensures ShortInv(Run(c, es), stream)
    ensures LosesIff(c, Run(c, es), FailsInRun(c, es))
    decreases |es|
  {
    if es == [] {
    } else {
      assert es[0] in es && forall e | e in es[1..] :: e in es;
      StepKeeps(c, es[0]);
      StepKeepsShort(c, stream, es[0]);
      hide Step, ShortInv, Inv, FailsIn, Carries;
      RunKeepsShort(Step(c, es[0]), stream, es[1..]);
    }
  }

  lemma WhatShortKeeps(c: Conn, stream: seq<u8>)
    requires ShortInv(c, stream)
    ensures c.t.remoteSeq == Mod32(c.t.remoteStart + c.log.remoteSyn + c.log.advanced + c.log.remoteFin)
    ensures c.log.advanced <= |stream| && (c.log.up == stream[..c.log.advanced] <==> c.log.lost == 0)
  {
    hide InPlace, Mod32;
  }

  lemma NewSessionShort(m: Subtraction, p: Packet, mss: u16, scale: nat, isn: u32, dest: u16, socket: int, now: int,
                        b: SendBuffer, stream: seq<u8>)
    requires p.data == [] && dest != HTTP_PORT && |stream| <= MAX_STREAM
    ensures var c := NewConn(m, p, mss, scale, isn, dest, socket, now, b);
            ShortInv(c, stream) && c.t.remoteStart == p.seqno && c.t.dest == dest && c.log.lost == 0
  {
    hide GetReceiveWindow, Pow2;
  }

  /**
    Reassembly of a stream that fits the sequence space. Over every interleaving
    of packets of the stream, in any order and however late, partial sends and
    timers, and whichever way differences are taken: what goes upstream is the
    stream from its first byte up to remote_seq if and only if no send call failed
    while bytes of its segment were left.
  */
  lemma ShortReassembly(m: Subtraction, p: Packet, mss: u16, scale: nat, isn: u32, dest: u16, socket: int, now: int,
                        b: SendBuffer, es: seq<Event>, stream: seq<u8>)
    requires p.data == [] && socket >= 0 && dest != TLS_PORT && dest != HTTP_PORT && |stream| <= MAX_STREAM
    requires Legal(NewConn(m, p, mss, scale, isn, dest, socket, now, b), es)
    requires AllCarry(p.seqno, stream, es)
    ensures var c0 := NewConn(m, p, mss, scale, isn, dest, socket, now, b);
            var c := Run(c0, es);
            && c.t.remoteSeq == Mod32(p.seqno + c.log.remoteSyn + c.log.advanced + c.log.remoteFin)
            && c.log.advanced <= |stream|
            && (c.log.up == stream[..c.log.advanced] <==> !FailsInRun(c0, es))
  {
    hide NewConn, Run, Legal, AllCarry, FailsInRun, Inv, ShortInv, Mod32;
    var c := NewConn(m, p, mss, scale, isn, dest, socket, now, b);
    NewSessionInv(m, p, mss, scale, isn, dest, socket, now, b);
    NewSessionShort(m, p, mss, scale, isn, dest, socket, now, b, stream);
    RunKeepsStart(c, es);
    RunKeepsShort(c, stream, es);
    WhatShortKeeps(Run(c, es), stream);
  }
}
