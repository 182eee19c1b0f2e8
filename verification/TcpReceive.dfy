/**
  Flow control toward the upstream socket, and the order of what is relayed
  back to the app.
*/
module TcpReceive {
  import opened Words
  import opened TcpQueue
  import opened TcpModel
  import opened TcpAccounting
  import TcpWindow

  // ---------- the receive window ----------

  /**
    A non-zero window leaves room for everything queued, within the socket
    buffer and the largest window a header can carry, exactly when the queue
    holds less than 2^32 unsent bytes (the sum is kept in a 32-bit word).
  */
  lemma ReceiveWindowRoom(t: Tcb, b: SendBuffer)
    requires AllSound(t.forward) && t.recvScale <= 14 && b.size < 0x8000_0000
    requires GetReceiveWindow(t, b) > 0
    ensures (GetReceiveWindow(t, b) + Unsent(t.forward) <= GetReceiveBuffer(t.socket, b)
             && GetReceiveWindow(t, b) + Unsent(t.forward) <= 0xFFFF * Pow2(t.recvScale))
            <==> Unsent(t.forward) < 0x1_0000_0000
  {
    UnsentNonNegative(t.forward);
    TcpWindow.ScaledWindow(0xFFFF, t.recvScale);
  }

  lemma {:induction false} UnsentNonNegative(q: seq<Segment>)
    requires AllSound(q)
    ensures Unsent(q) >= 0
  {
    if q == [] {
    } else {
      assert Sound(q[0]);
      UnsentNonNegative(q[1..]);
    }
  }

  /** Half of the socket's send buffer (16384 bytes when unknown), less what is unsent. */
  lemma ReceiveBufferRoom(socket: int, b: SendBuffer)
    ensures var r := GetReceiveBuffer(socket, b);
            var size := if b.size == 0 then 16384 else b.size;
            if socket < 0 || size < 2 * b.unsent + 2 then r == 0
            else size - 1 <= 2 * (r + b.unsent) <= size
  {
  }

  lemma ShrZero(x: nat, n: nat)
    ensures Shr(x, n) == 0 <==> x < Pow2(n)
  {
    ShrBounds(x, n);
    if Shr(x, n) > 0 {
      TcpWindow.MulMonotone(1, Shr(x, n), Pow2(n), Pow2(n));
    }
  }

  /** What the buffer and a header leave for more than is queued. */
  function RoomLeft(t: Tcb, b: SendBuffer): int {
    Min(GetReceiveBuffer(t.socket, b), 0xFFFF * Pow2(t.recvScale)) - Unsent(t.forward)
  }

  /** As long as the queue's sum fits 32 bits the window is that room, or none if it is below one scale unit. */
  lemma WindowIsRoom(t: Tcb, b: SendBuffer)
    requires 0 <= Unsent(t.forward) < 0x1_0000_0000 && t.recvScale <= 14 && b.size < 0x8000_0000
    ensures GetReceiveWindow(t, b) == if RoomLeft(t, b) < Pow2(t.recvScale) then 0 else RoomLeft(t, b)
  {
    TcpWindow.ScaledWindow(0xFFFF, t.recvScale);
    var room := RoomLeft(t, b);
    PowPositive(t.recvScale);
    assert Mod32(GetReceiveBuffer(t.socket, b)) == GetReceiveBuffer(t.socket, b);
    assert Mod32(Unsent(t.forward)) == Unsent(t.forward);
    ShrZero(if room > 0 then room else 0, t.recvScale);
    hide Pow2, Shr, Mod32, Unsent, GetReceiveBuffer;
  }

  lemma PowPositive(n: nat)
    ensures Pow2(n) > 0
  {}

  /**
    And it is the largest such window: whatever is at least one scale unit and
    leaves room for everything queued is not more than what is offered.
  */
  lemma ReceiveWindowMaximal(t: Tcb, b: SendBuffer, w: nat)
    requires AllSound(t.forward) && Unsent(t.forward) < 0x1_0000_0000 && t.recvScale <= 14 && b.size < 0x8000_0000
    requires w + Unsent(t.forward) <= GetReceiveBuffer(t.socket, b)
    requires w + Unsent(t.forward) <= 0xFFFF * Pow2(t.recvScale) && w >= Pow2(t.recvScale)
    ensures w <= GetReceiveWindow(t, b)
  {
    hide Unsent, Pow2, GetReceiveBuffer, GetReceiveWindow;
    UnsentNonNegative(t.forward);
    WindowIsRoom(t, b);
  }

  /** With nothing queued the window is all of the buffer a header can announce, or none below one scale unit. */
  lemma EmptyQueueWindow(t: Tcb, b: SendBuffer)
    requires t.forward == [] && t.recvScale <= 14 && b.size < 0x8000_0000
    ensures var room := Min(GetReceiveBuffer(t.socket, b), 0xFFFF * Pow2(t.recvScale));
            GetReceiveWindow(t, b) == if room < Pow2(t.recvScale) then 0 else room
  {
    assert Unsent(t.forward) == 0;
    hide Unsent, Pow2, GetReceiveBuffer, GetReceiveWindow;
    WindowIsRoom(t, b);
  }

  lemma {:induction false} FullyUnsent(q: seq<Segment>)
    requires forall i | 0 <= i < |q| :: q[i].len == 0xFFFF && q[i].sent == 0
    ensures Unsent(q) == |q| * 0xFFFF
  {
    if q == [] {
    } else {
      FullyUnsent(q[1..]);
    }
  }

  /** Full segments with the numbers 0, 1, 2 and so on. */
  function FullQueue(data: seq<u8>): (q: seq<Segment>)
    ensures |q| == 65538 && forall i | 0 <= i < |q| :: q[i] == Segment(i, 0xFFFF, 0, false, data)
  {
    seq(65538, i requires 0 <= i < 65538 => Segment(i, 0xFFFF, 0, false, data))
  }

  lemma FullWindow()
    ensures Mod32(0xFFFF * Pow2(14)) == 0x3FFF_C000 && Shr(34466, 14) == 2
  {
    TcpWindow.PowerOf14();
    assert Shr(34466, 7) == 269;
    assert Shr(269, 7) == 2;
    ShrTwice(34466, 7, 7);
  }

  /** 65538 full segments are more than 2^32 bytes, and a window is offered beyond any buffer. */
  lemma OverfullQueue(t: Tcb, data: seq<u8>)
    requires |data| == 0xFFFF && t.forward == FullQueue(data) && t.recvScale == 14 && t.socket >= 0
    ensures AllSound(t.forward) && Unsent(t.forward) == 65538 * 0xFFFF
    ensures var b := SendBuffer(200000, 0);
            && GetReceiveWindow(t, b) == 34466
            && GetReceiveWindow(t, b) + Unsent(t.forward) > GetReceiveBuffer(t.socket, b)
  {
    hide Unsent, Pow2, FullQueue, Shr;
    FullyUnsent(t.forward);
    FullWindow();
  }

  lemma {:induction false} ShrTwice(x: nat, n: nat, k: nat)
    ensures Shr(x, n + k) == Shr(Shr(x, n), k)
  {
    if n == 0 {
    } else {
      ShrTwice(x / 2, n - 1, k);
    }
  }

  /** The header carries the window in 16 bits, loses less than one scale unit, and is zero only when the window is. */
  lemma HeaderWindow(t: Tcb, b: SendBuffer)
    requires t.recvScale <= 14
    ensures var w := GetReceiveWindow(t, b);
            var header := Shr(w, t.recvScale);
            && header <= 0xFFFF
            && 0 <= w - header * Pow2(t.recvScale) < Pow2(t.recvScale)
            && (header == 0 <==> w == 0)
  {
    var w := GetReceiveWindow(t, b);
    var k := Pow2(t.recvScale);
    TcpWindow.ScaledWindow(0xFFFF, t.recvScale);
    ShrBounds(w, t.recvScale);
    assert w <= 0xFFFF * k;
    if Shr(w, t.recvScale) > 0xFFFF {
      TcpWindow.MulMonotone(0x1_0000, Shr(w, t.recvScale), k, k);
    }
  }

  /** Consecutive segments do not overlap. */
  ghost predicate Disjoint(origin: u32, q: seq<Segment>) {
    forall i | 0 <= i < |q| - 1 :: Distance(origin, q[i].seqno) + q[i].len <= Distance(origin, q[i + 1].seqno)
  }

  /** A queue of disjoint segments inside the sequence window is far from 2^32 bytes. */
  lemma {:induction false} DisjointFits(origin: u32, q: seq<Segment>)
    requires AllSound(q) && Disjoint(origin, q) && q != [] && Distance(origin, q[0].seqno) > -0x1_0000
    ensures Unsent(q) <= Distance(origin, q[|q| - 1].seqno) + q[|q| - 1].len - Distance(origin, q[0].seqno)
    ensures Unsent(q) < 0x1_0000_0000
  {
    assert Sound(q[0]);
    if |q| <= 1 {
    } else {
      assert q[1..][|q| - 2] == q[|q| - 1];
      forall i | 0 <= i < |q[1..]| - 1
        ensures Distance(origin, q[1..][i].seqno) + q[1..][i].len <= Distance(origin, q[1..][i + 1].seqno)
      {
        assert q[1..][i] == q[i + 1] && q[1..][i + 1] == q[i + 2];
      }
      DisjointFits(origin, q[1..]);
    }
  }

  /** One forward pass counts less than the buffer measured at its start, and hands over no more than it counts. */
  lemma {:induction false} ForwardWithinBuffer(c: Conn, buffer: int, sends: seq<SendStep>)
    requires AllSound(c.t.forward) && |sends| >= |c.t.forward|
    ensures var f := Forward(c, buffer, sends);
            && (f.1 ==> f.0.log.advanced - c.log.advanced < buffer)
            && (!f.1 ==> f.0.log.advanced == c.log.advanced)
            && f.0.log.advanced >= c.log.advanced
            && (c.t.dest != HTTP_PORT ==> |f.0.log.up| - |c.log.up| <= f.0.log.advanced - c.log.advanced)
    decreases |c.t.forward|
  {
    if !CanForward(c.t, buffer) {
    } else {
      var c1 := SendOnce(c, sends[0]);
      if |c1.t.forward| < |c.t.forward| {
        ForwardWithinBuffer(c1, buffer - (c1.log.advanced - c.log.advanced), sends[1..]);
      }
    }
  }

  // ---------- what the app receives ----------

  /** The payload of all packets written to the tun device, in order. */
  function Relayed(tun: seq<Out>): seq<u8> {
    if tun == [] then [] else Relayed(tun[..|tun| - 1]) + tun[|tun| - 1].data
  }

  /** Every packet with data carries the sequence number of its first byte. */
  predicate Numbered(tun: seq<Out>, start: u32) {
    tun == []
    || (var n := |tun| - 1;
        && Numbered(tun[..n], start)
        && (tun[n].data != [] ==> tun[n].seqno == Mod32(start + 1 + |Relayed(tun[..n])|)))
  }

  /** Read off packet by packet. */
  lemma {:induction false} NumberedAt(tun: seq<Out>, start: u32, i: nat)
    requires Numbered(tun, start) && i < |tun| && tun[i].data != []
    ensures tun[i].seqno == Mod32(start + 1 + |Relayed(tun[..i])|)
  {
    if i == |tun| - 1 {
    } else {
      NumberedAt(tun[..|tun| - 1], start, i);
      assert tun[..|tun| - 1][..i] == tun[..i];
    }
  }

  /** The payloads together are the bytes read from the socket, and the numbers fit. */
  predicate InOrder(c: Conn) {
    Relayed(c.log.tun) == c.log.down && Numbered(c.log.tun, c.t.localStart)
  }

  /** One packet more, carrying the next bytes or none. */
  lemma AppendedInOrder(tun: seq<Out>, start: u32, o: Out)
    requires Numbered(tun, start)
    requires o.data != [] ==> o.seqno == Mod32(start + 1 + |Relayed(tun)|)
    ensures Relayed(tun + [o]) == Relayed(tun) + o.data && Numbered(tun + [o], start)
  {
    assert (tun + [o])[..|tun|] == tun;
  }

  /** A step that writes at most packets without data. */
  predicate NoData(c: Conn, d: Conn) {
    && d.t.localStart == c.t.localStart && d.log.down == c.log.down
    && (|| d.log.tun == c.log.tun
        || (|d.log.tun| == |c.log.tun| + 1 && d.log.tun == c.log.tun + [d.log.tun[|c.log.tun|]]
            && d.log.tun[|c.log.tun|].data == []))
  }

  lemma NoDataKeepsOrder(c: Conn, d: Conn)
    requires InOrder(c) && NoData(c, d)
    ensures InOrder(d)
  {
    if d.log.tun != c.log.tun {
      AppendedInOrder(c.log.tun, c.t.localStart, d.log.tun[|c.log.tun|]);
    }
  }

  lemma WriteRstNoData(c: Conn, ok: bool)
    ensures NoData(c, WriteRst(c, ok))
  {
  }

  lemma HandleFlagsNoData(c: Conn, p: Packet, ok: bool)
    ensures NoData(c, HandleFlags(c, p, ok))
  {
    WriteRstNoData(c, ok);
  }

  lemma HandlePacketNoData(c: Conn, p: Packet, now: int, sendOk: bool, ok: bool)
    requires |p.data| < 0x1_0000 && c.t.dest != TLS_PORT
    ensures NoData(c, HandlePacket(c, p, now, sendOk, ok))
  {
    var s := Stamp(c, p, now);
    WriteRstNoData(c, ok);
    WriteRstNoData(s, ok);
    HandleFlagsNoData(s, p, ok);
    HandleFlagsNoData(Queue(s, p), p, ok);
  }

  lemma BeforeReadNoData(c: Conn, e: SocketEvent)
    requires Inv(c) && AllSound(c.t.forward) && |e.sends| >= |c.t.forward|
    ensures NoData(c, BeforeRead(c, e))
  {
    ForwardCounts(c, GetReceiveBuffer(c.t.socket, e.before), e.sends);
  }

  lemma ReadSocketKeepsOrder(c: Conn, readable: bool, recv: RecvResult, ok: bool, now: int)
    requires Inv(c) && InOrder(c) && c.t.dest != TLS_PORT
    ensures InOrder(ReadSocket(c, readable, recv, ok, now))
  {
    hide AllSound, Numbered, Relayed, GetSendWindow;
    var d := ReadSocket(c, readable, recv, ok, now);
    if IsOpen(c.t) && recv.Bytes? && recv.data != [] && d.log.tun != c.log.tun && d.log.down != c.log.down {
      var o := Build(c.t, recv.data, false, true, false, false);
      assert d.log.tun == c.log.tun + [o];
      AppendedInOrder(c.log.tun, c.t.localStart, o);
    } else {
      assert NoData(c, d);
      NoDataKeepsOrder(c, d);
    }
  }

  lemma SocketStepKeepsOrder(c: Conn, e: SocketEvent)
    requires Inv(c) && InOrder(c) && c.t.dest != TLS_PORT && c.t.socket >= 0 && |e.sends| >= |c.t.forward|
    ensures InOrder(SocketStep(c, e))
  {
    if e.err || c.t.state == Listen {
      WriteRstNoData(c, e.tunOk);
      WriteRstNoData(c.(t := c.t.(time := e.now)), e.rstOk);
      NoDataKeepsOrder(c, SocketStep(c, e));
    } else {
      BeforeReadNoData(c, e);
      NoDataKeepsOrder(c, BeforeRead(c, e));
      BeforeReadKeeps(c, e);
      ReadSocketKeepsOrder(BeforeRead(c, e), e.readable, e.recv, e.tunOk, e.now);
    }
  }

  lemma TimersNoData(c: Conn, e: Event)
    requires AllSound(c.t.forward) && Enabled(c, e) && (e.Watch? || e.Tick?)
    ensures NoData(c, Step(c, e))
  {
  }

  lemma StepKeepsOrder(c: Conn, e: Event)
    requires Inv(c) && InOrder(c) && Enabled(c, e) && c.t.dest != TLS_PORT
    ensures InOrder(Step(c, e))
  {
    match e
    case Arrive(p, now, sendOk, ok) =>
      HandlePacketNoData(c, p, now, sendOk, ok);
      NoDataKeepsOrder(c, Step(c, e));
    case Ready(ev) => SocketStepKeepsOrder(c, ev);
    case Watch(b, ms, ok, ctlOk) =>
      TimersNoData(c, e);
      NoDataKeepsOrder(c, Step(c, e));
    case Tick(now, sessions, maxSessions, ok) =>
      TimersNoData(c, e);
      NoDataKeepsOrder(c, Step(c, e));
  }

  /**
    The other direction of the stream: over every run outside port 443 the app
    is sent exactly the bytes read upstream, in order, each packet numbered by
    the position of its first byte.
  */
  lemma {:induction false} RelayInOrder(c: Conn, es: seq<Event>)
    requires Inv(c) && InOrder(c) && c.t.dest != TLS_PORT && Legal(c, es)
    ensures InOrder(Run(c, es))
    decreases |es|
  {
    if es == [] {
    } else {
      StepKeeps(c, es[0]);
      StepKeepsOrder(c, es[0]);
      RelayInOrder(Step(c, es[0]), es[1..]);
    }
  }

  /** From the SYN on: the sequence numbers count from the session's own initial number. */
  lemma RelayFromSyn(m: Subtraction, p: Packet, mss: u16, scale: nat, isn: u32, dest: u16, socket: int, now: int,
                     b: SendBuffer, es: seq<Event>)
    requires |p.data| < 0x1_0000 && socket >= 0 && dest != TLS_PORT
    requires Legal(NewConn(m, p, mss, scale, isn, dest, socket, now, b), es)
    ensures var c := Run(NewConn(m, p, mss, scale, isn, dest, socket, now, b), es);
            Relayed(c.log.tun) == c.log.down && Numbered(c.log.tun, isn)
  {
    var c := NewConn(m, p, mss, scale, isn, dest, socket, now, b);
    NewSessionInv(m, p, mss, scale, isn, dest, socket, now, b);
    assert InOrder(c) && c.t.localStart == isn && c.t.dest != TLS_PORT;
    hide NewConn, Run, Legal, Inv, Numbered, Relayed;
    RunKeepsStart(c, es);
    RelayInOrder(c, es);
  }
}
