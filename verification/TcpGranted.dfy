/**
  The send window against what the peer granted: over whole runs, the edges the
  packets themselves granted, and the packets that widen the edge beyond them.
*/
module TcpGranted {
  import opened Words
  import opened TcpQueue
  import opened TcpModel
  import opened TcpAccounting
  import opened TcpWindow

  /** A packet that grants an edge: an acknowledgement handled after the SYN was answered. */
  predicate Grants(c: Conn, e: Event) {
    e.Arrive? && e.packet.ack && !e.packet.urg && !e.packet.rst && c.t.state != Listen
  }

  /** The larger of `top` and what the event grants. */
  function Raised(c: Conn, e: Event, top: int): (r: int)
    ensures top <= r
  {
    if Grants(c, e) then Max(top, GrantedEdge(c, e.packet)) else top
  }

  /** The largest right edge the peer granted in a run; `top` was granted before. */
  function MaxGrant(c: Conn, es: seq<Event>, top: int): (r: int)
    requires Legal(c, es)
    ensures top <= r
    decreases |es|
  {
    if es == [] then top else MaxGrant(Step(c, es[0]), es[1..], Raised(c, es[0], top))
  }

  /** The last position a session with wrapped differences can send from, while its acked is below 2^31. */
  function Wall(c: Conn): int {
    AckedPos(c) + (0x7FFF_FFFF - c.t.acked)
  }

  /** No wrapped difference closes the window before `top` is passed. */
  predicate OpenPast(c: Conn, top: int) {
    c.t.sub.Wrapped? && c.t.acked < 0x8000_0000 ==> LocalPos(c) <= Wall(c) && top < Wall(c) + Max(c.t.mss, 1)
  }

  /** Without another packet, the window alone keeps the session from sending past `top`. */
  predicate CanSend(c: Conn, top: int) {
    IsOpen(c.t) && c.t.socket >= 0 && OpenPast(c, top)
  }

  /**
    A packet after which the session can still send acknowledges nothing older
    than `acked`, or its window, counted from `acked`, reaches no further than
    `top`.
  */
  predicate Covered(c: Conn, e: Event, top: int)
    requires AllSound(c.t.forward) && Enabled(c, e)
  {
    e.Arrive? && !e.packet.urg && Live(c.t.state) && CanSend(Step(c, e), top) ==>
      Current(c, e.packet) || AckedPos(c) + e.packet.window * Pow2(c.t.sendScale) <= top
  }

  predicate CoveredRun(c: Conn, es: seq<Event>, top: int)
    requires Legal(c, es)
    decreases |es|
  {
    es == [] || (Covered(c, es[0], Raised(c, es[0], top)) && CoveredRun(Step(c, es[0]), es[1..], Raised(c, es[0], top)))
  }

  /** What a live session handles acknowledges nothing older than `acked`. */
  predicate Fresh(c: Conn, e: Event) {
    e.Arrive? && !e.packet.urg && !e.packet.rst && Live(c.t.state) ==> Current(c, e.packet)
  }

  /** No packet of the run acknowledges less than an earlier one: none was overtaken on the way. */
  predicate FreshRun(c: Conn, es: seq<Event>)
    requires Legal(c, es)
    decreases |es|
  {
    es == [] || (Fresh(c, es[0]) && FreshRun(Step(c, es[0]), es[1..]))
  }

  /** Events other than packets. */
  predicate NoPackets(es: seq<Event>) {
    forall e | e in es :: !e.Arrive?
  }

  /**
    At no point of the run, nor later if nothing but socket events and timers
    follow that point, has more been sent than the largest edge granted by then.
  */
  ghost predicate NeverPasses(c: Conn, es: seq<Event>, top: int)
    requires Legal(c, es)
    decreases |es|
  {
    && (forall qs | NoPackets(qs) && Legal(c, qs) :: LocalPos(Run(c, qs)) <= MaxGrant(c, qs, top))
    && (es != [] ==> NeverPasses(Step(c, es[0]), es[1..], Raised(c, es[0], top)))
  }

  // ---------- steps ----------

  /** Without a packet the edge stays where it is, and only an open window lets anything out. */
  predicate EdgeStays(c: Conn, d: Conn) {
    && (Live(d.t.state) ==>
          Live(c.t.state) && RightEdge(d) == RightEdge(c) && AckedPos(d) == AckedPos(c) && d.t.acked == c.t.acked)
    && (IsOpen(d.t) ==> IsOpen(c.t))
    && (Live(c.t.state) && LocalPos(c) < LocalPos(d) ==>
          && IsOpen(c.t) && c.t.socket >= 0 && Alike(c.t.sub, c.t.acked, c.t.localSeq)
          && LocalPos(d) <= LocalPos(c) + Max(c.t.mss, 1))
  }

  lemma ReadEofEdge(c: Conn, ok: bool)
    requires WindowInv(c) && IsOpen(c.t) && c.t.socket >= 0 && Alike(c.t.sub, c.t.acked, c.t.localSeq)
    ensures EdgeStays(c, ReadEof(c, ok))
  {
    BehindGrows(c.t.localSeq, c.t.acked, 1);
    WriteRstWindowQuiet(c, ok);
    hide Alike, WriteRst;
  }

  lemma ReadDataEdge(c: Conn, data: seq<u8>, ok: bool)
    requires WindowInv(c) && IsOpen(c.t) && |data| <= MAX_WINDOW && |data| <= c.t.mss
    requires c.t.socket >= 0 && Alike(c.t.sub, c.t.acked, c.t.localSeq)
    ensures EdgeStays(c, ReadData(c, data, ok))
  {
    BehindGrows(c.t.localSeq, c.t.acked, |data|);
    hide Alike;
  }

  lemma ReadSocketEdge(c: Conn, readable: bool, recv: RecvResult, ok: bool, now: int)
    requires WindowInv(c) && c.t.socket >= 0 && (recv.Bytes? && IsOpen(c.t) ==> |recv.data| <= ReadSize(c.t))
    ensures EdgeStays(c, ReadSocket(c, readable, recv, ok, now))
    ensures !IsOpen(c.t) ==> ReadSocket(c, readable, recv, ok, now) == c
  {
    hide ReadEof, ReadData, WriteRst, GetSendWindow, Alike, LocalPos, RightEdge, AckedPos;
    if IsOpen(c.t) && readable && GetSendWindow(c.t) > 0 {
      var c1 := c.(t := c.t.(time := now));
      TimeEdge(c, now);
      SendWindowMeaning(c);
      WriteRstWindowQuiet(c1, ok);
      RstShuts(c1, ok);
      ReadEofEdge(c1, ok);
      if recv.Bytes? && recv.data != [] {
        ReadDataEdge(c1, recv.data, ok);
      }
    }
  }

  lemma TimeEdge(c: Conn, now: int)
    ensures var d := c.(t := c.t.(time := now));
            && LocalPos(d) == LocalPos(c) && RightEdge(d) == RightEdge(c) && AckedPos(d) == AckedPos(c)
            && (WindowInv(c) ==> WindowInv(d))
  {}

  lemma RstShuts(c: Conn, ok: bool)
    ensures !Live(WriteRst(c, ok).t.state)
  {}

  lemma ReadyEdge(c: Conn, ev: SocketEvent)
    requires Inv(c) && WindowInv(c) && c.t.dest != TLS_PORT && Enabled(c, Ready(ev))
    ensures EdgeStays(c, SocketStep(c, ev))
  {
    hide BeforeRead, WriteRst, ReadSocket, Alike, Build;
    if ev.err {
      WriteRstWindowQuiet(c.(t := c.t.(time := ev.now)), ev.rstOk);
      RstShuts(c.(t := c.t.(time := ev.now)), ev.rstOk);
    } else if c.t.state == Listen {
      WriteRstWindowQuiet(c, ev.tunOk);
      RstShuts(c, ev.tunOk);
    } else {
      BeforeReadWindowQuiet(c, ev);
      BeforeReadState(c, ev);
      ReadSocketEdge(BeforeRead(c, ev), ev.readable, ev.recv, ev.tunOk, ev.now);
    }
  }

  lemma BeforeReadState(c: Conn, e: SocketEvent)
    requires AllSound(c.t.forward) && |e.sends| >= |c.t.forward|
    ensures var d := BeforeRead(c, e);
            && (d.t.state == c.t.state || d.t.state == Closing)
            && d.t.mss == c.t.mss && d.t.sub == c.t.sub && d.t.socket == c.t.socket
  {
    ForwardCounts(c, GetReceiveBuffer(c.t.socket, e.before), e.sends);
    hide Forward, GetReceiveWindow, Build;
  }

  /** Only packets move the edge. */
  lemma NoPacketEdge(c: Conn, e: Event)
    requires Inv(c) && WindowInv(c) && c.t.dest != TLS_PORT && Enabled(c, e) && !e.Arrive?
    ensures EdgeStays(c, Step(c, e))
  {
    hide SocketStep, Monitor, CheckSession, Inv, Alike;
    match e
    case Ready(ev) => ReadyEdge(c, ev);
    case Watch(b, ms, ok, ctlOk) => WatchEdge(c, b, ms, ok, ctlOk);
    case Tick(now, sessions, maxSessions, ok) => TickEdge(c, now, sessions, maxSessions, ok);
  }

  lemma WatchEdge(c: Conn, b: SendBuffer, ms: int, ok: bool, ctlOk: bool)
    ensures EdgeStays(c, Monitor(c, b, ms, ok, ctlOk))
  {
    MonitorWindowQuiet(c, b, ms, ok, ctlOk);
    hide Alike, Build, GetSendWindow, GetReceiveBuffer, Mod32;
  }

  lemma TickEdge(c: Conn, now: int, sessions: int, maxSessions: int, ok: bool)
    requires maxSessions > 0
    ensures EdgeStays(c, CheckSession(c, now, sessions, maxSessions, ok).0)
  {
    CheckSessionWindowQuiet(c, now, sessions, maxSessions, ok);
    RstShuts(c, ok);
    hide Alike, WriteRst, GetTcpTimeout, Mod32;
  }

  lemma RstCloses(c: Conn, p: Packet, ok: bool)
    requires |p.data| < 0x1_0000
    ensures p.rst ==> !Live(HandleOpen(c, p, ok).t.state)
  {}

  /** The edge after a packet: one it granted itself, or its window counted from the old `acked`. */
  lemma PacketEdge(c: Conn, p: Packet, now: int, sendOk: bool, ok: bool)
    requires WindowInv(c) && Live(c.t.state) && c.t.dest != TLS_PORT && |p.data| < 0x1_0000
    requires !p.urg && (!p.rst ==> !OddAck(c, p))
    ensures var d := HandlePacket(c, p, now, sendOk, ok);
            Live(d.t.state) ==>
              && !p.rst
              && (Current(c, p) ==> RightEdge(d) <= GrantedEdge(c, p))
              && (!Current(c, p) ==> RightEdge(d) == AckedPos(c) + p.window * Pow2(c.t.sendScale))
  {
    hide HandleOpen, WriteRst;
    StampWindow(c, p, now);
    RstCloses(Stamp(c, p, now), p, ok);
    if !p.rst {
      OpenEdge(Stamp(c, p, now), p, ok);
    }
  }

  lemma FirstFlags(c: Conn, p: Packet, ok: bool)
    requires !Live(c.t.state)
    ensures var d := HandleFlags(c, p, ok);
            Live(d.t.state) ==>
              c.t.state == SynRecv && p.ack && !p.rst && p.ackno == c.t.localSeq && d.t.acked == p.ackno
  {
    hide WriteRst;
    WriteRstWindowQuiet(c, ok);
  }

  lemma FirstOpen(c: Conn, p: Packet, ok: bool)
    requires !Live(c.t.state) && |p.data| < 0x1_0000
    ensures var d := HandleOpen(c, p, ok);
            && LocalPos(d) == LocalPos(c) && d.t.sendWindow == c.t.sendWindow && d.t.localSeq == c.t.localSeq
            && (Live(d.t.state) ==>
                  c.t.state == SynRecv && p.ack && !p.rst && p.ackno == c.t.localSeq && d.t.acked == p.ackno)
  {
    hide HandleFlags, WriteRst;
    WriteRstWindowQuiet(c, ok);
    var q := if p.data != [] then Queue(c, p) else c;
    FirstFlags(q, p, ok);
    FlagsTaken(q, p, ok);
  }

  /** A session becomes live by an acknowledgement of all it sent. */
  lemma FirstEdge(c: Conn, p: Packet, now: int, sendOk: bool, ok: bool)
    requires WindowInv(c) && !Live(c.t.state) && c.t.dest != TLS_PORT && |p.data| < 0x1_0000
    ensures var d := HandlePacket(c, p, now, sendOk, ok);
            LocalPos(d) == LocalPos(c)
            && (Live(d.t.state) ==>
                  c.t.state == SynRecv && p.ack && !p.urg && !p.rst && RightEdge(d) == GrantedEdge(c, p))
  {
    hide HandleOpen, WriteRst;
    WriteRstWindowQuiet(c, ok);
    StampWindow(c, p, now);
    FirstOpen(Stamp(c, p, now), p, ok);
  }

  // ---------- runs ----------

  /** What was granted so far covers what was sent, and the edge that may be used next. */
  predicate Within(c: Conn, top: int) {
    && WindowInv(c)
    && LocalPos(c) + (if c.t.state == Listen then 1 else 0) <= top
    && (CanSend(c, top) ==> RightEdge(c) <= top)
  }

  /** A session that is not live sends its SYN at most. */
  lemma NotLiveSends(c: Conn, e: Event)
    requires Inv(c) && WindowInv(c) && c.t.dest != TLS_PORT && Enabled(c, e) && !Live(c.t.state)
    ensures var d := Step(c, e);
            LocalPos(d) + (if d.t.state == Listen then 1 else 0) <= LocalPos(c) + (if c.t.state == Listen then 1 else 0)
  {
    StepKeeps(c, e);
    hide HandlePacket, BeforeRead, Monitor, CheckSession, WriteRst, AllSound;
    match e
    case Arrive(p, now, sendOk, ok) => FirstEdge(c, p, now, sendOk, ok);
    case Ready(ev) =>
      if ev.err {
        WriteRstWindowQuiet(c.(t := c.t.(time := ev.now)), ev.rstOk);
      } else if c.t.state == Listen {
        WriteRstWindowQuiet(c, ev.tunOk);
      } else {
        BeforeReadWindowQuiet(c, ev);
      }
    case Watch(b, ms, ok, ctlOk) => MonitorWindowQuiet(c, b, ms, ok, ctlOk);
    case Tick(now, sessions, maxSessions, ok) => CheckSessionWindowQuiet(c, now, sessions, maxSessions, ok);
  }

  /** A wrapped difference closes the window exactly beyond the wall. */
  lemma BelowWall(c: Conn)
    requires WindowInv(c) && Live(c.t.state)
    ensures Alike(c.t.sub, c.t.acked, c.t.localSeq) <==>
            (c.t.sub.Wrapped? && c.t.acked < 0x8000_0000 ==> LocalPos(c) <= Wall(c))
  {
    ForwardDistance(c.t.acked, c.t.localSeq);
    hide Mod32, LocalPos;
  }

  /** Without a packet both stay as they are. */
  lemma NoPacketWithin(c: Conn, e: Event, top: int)
    requires Inv(c) && c.t.dest != TLS_PORT && Enabled(c, e) && Within(c, top) && !e.Arrive?
    ensures Within(Step(c, e), top)
  {
    hide Step, Inv, Behind, GetSendWindow, Enabled, LocalPos, AckedPos, RightEdge, Alike;
    StepKeeps(c, e);
    StepKeepsWindow(c, e);
    NoPacketEdge(c, e);
    if !Live(c.t.state) {
      NotLiveSends(c, e);
    } else {
      BelowWall(c);
    }
  }

  lemma FirstWithin(c: Conn, e: Event, top: int)
    requires Inv(c) && c.t.dest != TLS_PORT && Enabled(c, e) && Within(c, top) && e.Arrive? && !Live(c.t.state)
    ensures Within(Step(c, e), Raised(c, e, top)) && Covered(c, e, Raised(c, e, top))
  {
    assert NoOddAck(c, e);
    assert Step(c, e) == HandlePacket(c, e.packet, e.now, e.sendOk, e.ok);
    hide HandlePacket, Step, Inv, AllSound, LocalPos, GetSendWindow, RightEdge, GrantedEdge, OpenPast;
    StepKeepsWindow(c, e);
    NotLiveSends(c, e);
    FirstEdge(c, e.packet, e.now, e.sendOk, e.ok);
  }

  /** A packet sends nothing. Covered, it leaves the session within what was granted, otherwise able to pass it. */
  lemma PacketWithin(c: Conn, e: Event, top: int)
    requires Inv(c) && c.t.dest != TLS_PORT && Enabled(c, e) && NoOddAck(c, e) && Within(c, top)
    requires e.Arrive? && Live(c.t.state)
    ensures var d := Step(c, e);
            var raised := Raised(c, e, top);
            && LocalPos(d) == LocalPos(c) && WindowInv(d)
            && (Covered(c, e, raised) ==> Within(d, raised))
            && (!Covered(c, e, raised) ==> CanSend(d, raised) && RightEdge(d) > raised)
  {
    var p := e.packet;
    assert p.urg ==> Step(c, e) == c;
    assert Step(c, e) == HandlePacket(c, p, e.now, e.sendOk, e.ok);
    hide HandlePacket, Step, Inv, AllSound, LocalPos, GetSendWindow, RightEdge, GrantedEdge, AckedPos, OddAck, Wall;
    StepKeeps(c, e);
    StepKeepsWindow(c, e);
    PacketLocal(c, e);
    if p.urg {
      UrgentWithin(c, e, top);
    } else {
      PacketEdge(c, p, e.now, e.sendOk, e.ok);
    }
  }

  /** An urgent packet is not handled. */
  lemma UrgentWithin(c: Conn, e: Event, top: int)
    requires AllSound(c.t.forward) && Enabled(c, e) && e.Arrive? && e.packet.urg && Within(c, top)
    ensures Step(c, e) == c && Raised(c, e, top) == top
  {}

  lemma PacketLocal(c: Conn, e: Event)
    requires Inv(c) && WindowInv(c) && c.t.dest != TLS_PORT
    requires Enabled(c, e) && NoOddAck(c, e) && e.Arrive? && Live(c.t.state)
    ensures LocalPos(Step(c, e)) == LocalPos(c)
  {
    var p := e.packet;
    hide HandleOpen, WriteRst;
    WriteRstWindowQuiet(c, e.ok);
    if !p.urg {
      StampWindow(c, p, e.now);
      OpenEdge(Stamp(c, p, e.now), p, e.ok);
    }
  }

  lemma StepWithin(c: Conn, e: Event, top: int)
    requires Inv(c) && c.t.dest != TLS_PORT && Enabled(c, e) && NoOddAck(c, e) && Within(c, top)
    requires Covered(c, e, Raised(c, e, top))
    ensures Within(Step(c, e), Raised(c, e, top))
  {
    hide Step, Covered;
    if e.Arrive? && Live(c.t.state) {
      PacketWithin(c, e, top);
    } else if e.Arrive? {
      FirstWithin(c, e, top);
    } else {
      NoPacketWithin(c, e, top);
    }
  }

  /** Nothing is granted, and nothing uncovered, without packets. */
  lemma {:induction false} QuietWithin(c: Conn, qs: seq<Event>, top: int)
    requires Inv(c) && c.t.dest != TLS_PORT && Legal(c, qs) && NoPackets(qs)
    ensures MaxGrant(c, qs, top) == top
    ensures Within(c, top) ==> LocalPos(Run(c, qs)) <= top
    decreases |qs|
  {
    if qs == [] {
    } else {
      assert qs[0] in qs && forall e | e in qs[1..] :: e in qs;
      StepKeeps(c, qs[0]);
      if Within(c, top) {
        NoPacketWithin(c, qs[0], top);
      }
      hide Step, Within, Inv;
      QuietWithin(Step(c, qs[0]), qs[1..], top);
    }
  }

  // ---------- an uncovered packet lets bytes pass ----------

  const NO_BUFFER := SendBuffer(0, 0)

  /** The upstream socket has n bytes to read, and everything written to the app arrives. */
  function ReadOf(c: Conn, n: nat): Event {
    var sends := seq(|c.t.forward|, _ => SendStep(None, Failed));
    Ready(SocketEvent(c.t.time, false, true, false, NO_BUFFER, sends, NO_BUFFER, true, true,
                      Bytes(seq(n, _ => 0)), true))
  }

  /** What only reading changes. */
  predicate ReadOn(c: Conn, d: Conn, n: nat) {
    && d.t.state == c.t.state && d.t.socket == c.t.socket && d.t.mss == c.t.mss && d.t.sub == c.t.sub
    && d.t.dest == c.t.dest && d.t.acked == c.t.acked && d.t.sendWindow == c.t.sendWindow
    && LocalPos(d) == LocalPos(c) + n && d.t.localSeq == Mod32(c.t.localSeq + n)
  }

  lemma QuietBeforeRead(c: Conn, n: nat)
    requires AllSound(c.t.forward) && IsOpen(c.t)
    ensures var d := BeforeRead(c, ReadOf(c, n).event);
            ReadOn(c, d, 0) && GetSendWindow(d.t) == GetSendWindow(c.t) && ReadSize(d.t) == ReadSize(c.t)
  {
    hide GetReceiveWindow, Build;
  }

  lemma ReadsOn(c: Conn, n: nat)
    requires AllSound(c.t.forward) && IsOpen(c.t) && c.t.socket >= 0 && 0 < n <= ReadSize(c.t)
    ensures Enabled(c, ReadOf(c, n)) && ReadOn(c, Step(c, ReadOf(c, n)), n)
  {
    QuietBeforeRead(c, n);
    ModAdd(c.t.localSeq, 0);
    hide BeforeRead, GetSendWindow, Build;
  }

  /** How much to read next: a full read when it passes top, a byte otherwise. */
  function Portion(c: Conn, top: int): nat {
    if LocalPos(c) + ReadSize(c.t) > top then ReadSize(c.t) else 1
  }

  /** The session can be made to send past top. */
  predicate Passing(c: Conn, top: int) {
    && WindowInv(c) && CanSend(c, top) && top < RightEdge(c) && c.t.mss > 0
  }

  lemma PortionFits(c: Conn, top: int)
    requires Passing(c, top) && LocalPos(c) <= top
    ensures 0 < Portion(c, top) <= ReadSize(c.t)
    ensures LocalPos(c) + Portion(c, top) <= top && c.t.sub.Wrapped? && c.t.acked < 0x8000_0000 ==>
              LocalPos(c) + Portion(c, top) <= Wall(c)
  {
    SendWindowMeaning(c);
    BelowWall(c);
    hide GetSendWindow, Mod32, LocalPos, Alike;
  }

  lemma PassesStep(c: Conn, top: int)
    requires Inv(c) && c.t.dest != TLS_PORT && Passing(c, top) && LocalPos(c) <= top
    ensures var e := ReadOf(c, Portion(c, top));
            && !e.Arrive? && Enabled(c, e)
            && Inv(Step(c, e)) && AllSound(Step(c, e).t.forward) && Step(c, e).t.dest == c.t.dest
            && LocalPos(Step(c, e)) > LocalPos(c)
            && (LocalPos(Step(c, e)) <= top ==> Passing(Step(c, e), top))
  {
    var n := Portion(c, top);
    var e := ReadOf(c, n);
    PortionFits(c, top);
    ReadsOn(c, n);
    hide ReadOf, Portion, Step, Enabled, GetSendWindow, LocalPos, Alike, Mod32, RightEdge, AckedPos;
    StepKeeps(c, e);
    StepKeepsWindow(c, e);
    NoPacketEdge(c, e);
  }

  /** Reading on, the session sends past top. */
  lemma {:induction false} Passes(c: Conn, top: int) returns (qs: seq<Event>)
    requires Inv(c) && c.t.dest != TLS_PORT && Passing(c, top)
    ensures NoPackets(qs) && Legal(c, qs) && LocalPos(Run(c, qs)) > top
    decreases top - LocalPos(c)
  {
    assert AllSound(c.t.forward);
    hide Step, Passing, Enabled, ReadOf, Portion, Inv, LocalPos;
    if LocalPos(c) > top {
      qs := [];
    } else {
      PassesStep(c, top);
      var e := ReadOf(c, Portion(c, top));
      var d := Step(c, e);
      if LocalPos(d) > top {
        qs := [e];
        assert Run(c, qs) == Run(d, []) == d;
      } else {
        var rest := Passes(d, top);
        qs := [e] + rest;
      }
    }
  }

  lemma NotCovered(c: Conn, e: Event, top: int)
    requires AllSound(c.t.forward) && Enabled(c, e) && !Covered(c, e, top)
    ensures e.Arrive? && Live(c.t.state)
  {}

  /** After a packet that is not covered, more can be sent than was ever granted. */
  lemma UncoveredPasses(c: Conn, e: Event, top: int) returns (qs: seq<Event>)
    requires Inv(c) && c.t.dest != TLS_PORT && Enabled(c, e) && NoOddAck(c, e) && Within(c, top) && c.t.mss > 0
    requires !Covered(c, e, Raised(c, e, top))
    ensures NoPackets(qs) && Legal(c, [e] + qs)
    ensures LocalPos(Run(c, [e] + qs)) > MaxGrant(c, [e] + qs, top)
  {
    var d, raised := Step(c, e), Raised(c, e, top);
    NotCovered(c, e, raised);
    StepKeeps(c, e);
    PacketWithin(c, e, top);
    assert Passing(d, raised);
    hide Step, Passing, Within, Covered, Raised, Inv;
    qs := Passes(d, raised);
    QuietWithin(d, qs, raised);
    assert ([e] + qs)[1..] == qs;
  }

  // ---------- runs ----------

  /**
    Over every run, as long as it is covered: nothing is ever sent beyond the
    largest edge granted. With a packet that is not covered, something can be.
  */
  lemma {:induction false} RunWithin(c: Conn, es: seq<Event>, top: int)
    requires Inv(c) && c.t.dest != TLS_PORT && Legal(c, es) && NoOddRun(c, es) && Within(c, top)
    ensures CoveredRun(c, es, top) ==> NeverPasses(c, es, top) && LocalPos(Run(c, es)) <= MaxGrant(c, es, top)
    ensures c.t.mss > 0 && NeverPasses(c, es, top) ==> CoveredRun(c, es, top)
    decreases |es|
  {
    forall qs | NoPackets(qs) && Legal(c, qs)
      ensures LocalPos(Run(c, qs)) <= MaxGrant(c, qs, top)
    {
      QuietWithin(c, qs, top);
    }
    if es == [] {
    } else {
      var d, raised := Step(c, es[0]), Raised(c, es[0], top);
      StepKeeps(c, es[0]);
      if Covered(c, es[0], raised) {
        StepWithin(c, es[0], top);
        hide Step, Covered, Within, Raised, Inv;
        RunWithin(d, es[1..], raised);
      } else if c.t.mss > 0 {
        UncoveredNotSafe(c, es, top);
      }
    }
  }

  lemma UncoveredNotSafe(c: Conn, es: seq<Event>, top: int)
    requires Inv(c) && c.t.dest != TLS_PORT && Legal(c, es) && NoOddRun(c, es) && Within(c, top) && c.t.mss > 0
    requires es != [] && !Covered(c, es[0], Raised(c, es[0], top))
    ensures !NeverPasses(c, es, top)
  {
    var qs := UncoveredPasses(c, es[0], top);
    var d, raised := Step(c, es[0]), Raised(c, es[0], top);
    assert ([es[0]] + qs)[1..] == qs;
    assert NoPackets(qs) && Legal(d, qs) && LocalPos(Run(d, qs)) > MaxGrant(d, qs, raised);
    hide Step, Covered, Within, Raised, Inv, Run, MaxGrant, LocalPos;
    assert !NeverPasses(d, es[1..], raised);
  }

  lemma FreshStep(c: Conn, e: Event, top: int)
    requires AllSound(c.t.forward) && Enabled(c, e) && c.t.dest != TLS_PORT && Fresh(c, e)
    ensures Covered(c, e, top) && NoOddAck(c, e)
  {
    hide Step, Enabled, OpenPast, AckedPos, OddAck;
    if e.Arrive? && !e.packet.urg && Live(c.t.state) {
      if e.packet.rst {
        ResetShuts(c, e);
      } else {
        CurrentNotOdd(c, e.packet);
      }
    }
  }

  lemma ResetShuts(c: Conn, e: Event)
    requires AllSound(c.t.forward) && Enabled(c, e) && c.t.dest != TLS_PORT
    requires e.Arrive? && !e.packet.urg && e.packet.rst && Live(c.t.state)
    ensures !IsOpen(Step(c, e).t)
  {
    RstCloses(Stamp(c, e.packet, e.now), e.packet, e.ok);
    assert Step(c, e) == HandleOpen(Stamp(c, e.packet, e.now), e.packet, e.ok);
    hide HandleOpen, Step, HandlePacket;
  }

  lemma CurrentNotOdd(c: Conn, p: Packet)
    requires Current(c, p)
    ensures !OddAck(c, p)
  {
    ForwardDistance(p.ackno, c.t.localSeq);
    ForwardDistance(c.t.acked, c.t.localSeq);
    hide Mod32;
  }

  /** A run in which no packet was overtaken is covered, and no acknowledgement in it is odd. */
  lemma {:induction false} FreshIsCovered(c: Conn, es: seq<Event>, top: int)
    requires Inv(c) && c.t.dest != TLS_PORT && Legal(c, es) && FreshRun(c, es)
    ensures CoveredRun(c, es, top) && NoOddRun(c, es)
    decreases |es|
  {
    if es == [] {
    } else {
      StepKeeps(c, es[0]);
      FreshStep(c, es[0], Raised(c, es[0], top));
      hide Step, Covered, Fresh, NoOddAck;
      FreshIsCovered(Step(c, es[0]), es[1..], Raised(c, es[0], top));
    }
  }

  /**
    Send-window safety from the SYN on: local_seq never exceeds the largest edge
    granted, its own SYN aside, neither in the run nor in a continuation without
    packets, if and only if every packet is covered.
  */
  lemma GrantedWindowSafety(m: Subtraction, p: Packet, mss: u16, scale: nat, isn: u32, dest: u16, socket: int, now: int,
                            b: SendBuffer, es: seq<Event>)
    requires |p.data| < 0x1_0000 && socket >= 0 && dest != TLS_PORT && scale <= 14
    requires Legal(NewConn(m, p, mss, scale, isn, dest, socket, now, b), es)
    requires NoOddRun(NewConn(m, p, mss, scale, isn, dest, socket, now, b), es)
    ensures var c := NewConn(m, p, mss, scale, isn, dest, socket, now, b);
            && (CoveredRun(c, es, isn + 1) ==> LocalPos(Run(c, es)) <= MaxGrant(c, es, isn + 1))
            && (CoveredRun(c, es, isn + 1) ==> NeverPasses(c, es, isn + 1))
            && (mss > 0 && NeverPasses(c, es, isn + 1) ==> CoveredRun(c, es, isn + 1))
  {
    var c := NewConn(m, p, mss, scale, isn, dest, socket, now, b);
    NewSessionInv(m, p, mss, scale, isn, dest, socket, now, b);
    NewSessionWindow(m, p, mss, scale, isn, dest, socket, now, b);
    assert Within(c, isn + 1);
    hide NewConn, Run, Legal, NoOddRun, CoveredRun, NeverPasses, MaxGrant, Within, Inv;
    RunWithin(c, es, isn + 1);
  }

  /** In particular when the peer's packets arrive in the order of their acknowledgements. */
  lemma FreshWindowSafety(m: Subtraction, p: Packet, mss: u16, scale: nat, isn: u32, dest: u16, socket: int, now: int,
                          b: SendBuffer, es: seq<Event>)
    requires |p.data| < 0x1_0000 && socket >= 0 && dest != TLS_PORT && scale <= 14
    requires Legal(NewConn(m, p, mss, scale, isn, dest, socket, now, b), es)
    requires FreshRun(NewConn(m, p, mss, scale, isn, dest, socket, now, b), es)
    ensures var c := NewConn(m, p, mss, scale, isn, dest, socket, now, b);
            LocalPos(Run(c, es)) <= MaxGrant(c, es, isn + 1)
  {
    NewSessionInv(m, p, mss, scale, isn, dest, socket, now, b);
    var c := NewConn(m, p, mss, scale, isn, dest, socket, now, b);
    hide NewConn, Run, Legal, NoOddRun, CoveredRun, NeverPasses, MaxGrant, FreshRun, Inv;
    FreshIsCovered(c, es, isn + 1);
    GrantedWindowSafety(m, p, mss, scale, isn, dest, socket, now, b, es);
  }

  // ---------- a run that passes every granted edge ----------

    /** A bare acknowledgement. */
  function AckOf(ackno: u32, window: u16): Packet {
    Packet(2, ackno, window, false, true, false, false, false, false, [])
  }

  function ArrivalOf(p: Packet): Event {
    Arrive(p, 0, true, true)
  }

  function ReadyFor(readable: bool, recv: RecvResult): Event {
    Ready(SocketEvent(0, false, readable, false, NO_BUFFER, [], NO_BUFFER, true, true, recv, true))
  }

  const TEN: seq<u8> := [1, 2, 3, 4, 5, 6, 7, 8, 9, 10]

  /** A session to port 8080 with numbers from 1000 on and windows of ten bytes. */
  function Opened(m: Subtraction): Conn {
    NewConn(m, Packet(1, 0, 10, true, false, false, false, false, false, []), 1460, 0, 1000, 8080, 5, 0, NO_BUFFER)
  }

  /**
    Connected, acknowledged, ten bytes sent and acknowledged with a shut window;
    then the first acknowledgement again.
  */
  function StaleRun(): seq<Event> {
    [ReadyFor(false, WouldBlock), ArrivalOf(AckOf(1001, 10)), ReadyFor(true, Bytes(TEN)), ArrivalOf(AckOf(1011, 0)),
     ArrivalOf(AckOf(1001, 10)), ReadyFor(true, Bytes(TEN))]
  }

  /** An idle established session of the run: its numbers and its window. */
  predicate Idle(c: Conn, local: u32, acked: u32, window: u32) {
    && c.t.state == Established && c.t.forward == [] && c.t.socket == 5 && c.t.mss == 1460 && c.t.dest == 8080
    && c.t.sendScale == 0 && c.t.localSeq == local && c.t.acked == acked
    && c.t.sendWindow == window && LocalPos(c) == local
  }

  lemma OneEvent(c: Conn, e: Event, es: seq<Event>, top: int)
    requires c.t.forward == [] && Enabled(c, e) && Legal(Step(c, e), es)
    ensures Legal(c, [e] + es) && Run(c, [e] + es) == Run(Step(c, e), es)
    ensures MaxGrant(c, [e] + es, top) == MaxGrant(Step(c, e), es, Raised(c, e, top))
  {
    hide Step, Enabled, Raised;
    assert ([e] + es)[1..] == es && ([e] + es)[0] == e;
  }

  lemma NoEvent(c: Conn, top: int)
    ensures Legal(c, []) && Run(c, []) == c && MaxGrant(c, [], top) == top
  {}

  lemma ConnectEvent(m: Subtraction)
    ensures Enabled(Opened(m), ReadyFor(false, WouldBlock)) && Opened(m).t.forward == []
    ensures Raised(Opened(m), ReadyFor(false, WouldBlock), 1001) == 1001
    ensures var d := Step(Opened(m), ReadyFor(false, WouldBlock));
            && d.t.state == SynRecv && d.t.forward == [] && d.t.socket == 5 && d.t.mss == 1460 && d.t.dest == 8080
            && d.t.sendScale == 0 && d.t.localSeq == 1001 && LocalPos(d) == 1001
  {
    hide GetReceiveWindow, Build, Pow2;
  }

  lemma FirstAck(c: Conn, top: int)
    requires c.t.forward == [] && c.t.socket == 5 && c.t.mss == 1460 && c.t.dest == 8080 && c.t.sendScale == 0
    requires c.t.state == SynRecv && LocalPos(c) == c.t.localSeq == 1001
    ensures Enabled(c, ArrivalOf(AckOf(1001, 10)))
    ensures Idle(Step(c, ArrivalOf(AckOf(1001, 10))), 1001, 1001, 10)
    ensures Raised(c, ArrivalOf(AckOf(1001, 10)), top) == Max(top, 1011)
  {
    assert Pow2(0) == 1;
    hide Build;
  }

  lemma AckEvent(c: Conn, local: u32, acked: u32, before: u32, ackno: u32, window: u16, top: int)
    requires Idle(c, local, acked, before) && ackno <= local <= 2000
    requires ackno < local ==> acked == local && ackno + 1 < local
    ensures c.t.forward == [] && Enabled(c, ArrivalOf(AckOf(ackno, window)))
    ensures Idle(Step(c, ArrivalOf(AckOf(ackno, window))), local, local, window)
    ensures Raised(c, ArrivalOf(AckOf(ackno, window)), top) == Max(top, ackno + window)
  {
    assert Pow2(0) == 1;
    hide Build;
  }

  /** What the read part finds. */
  lemma IdleBeforeRead(c: Conn, e: SocketEvent, local: u32, acked: u32, window: u32)
    requires Idle(c, local, acked, window) && !e.writable && e.ackOk
    ensures Idle(BeforeRead(c, e), local, acked, window)
  {
    hide GetReceiveWindow, Build;
  }

  lemma ReadEvent(c: Conn, local: u32, acked: u32, top: int)
    requires Idle(c, local, acked, 10) && local == acked <= 2000
    ensures c.t.forward == [] && Enabled(c, ReadyFor(true, Bytes(TEN)))
    ensures Idle(Step(c, ReadyFor(true, Bytes(TEN))), local + 10, acked, 10)
    ensures Raised(c, ReadyFor(true, Bytes(TEN)), top) == top
  {
    IdleBeforeRead(c, ReadyFor(true, Bytes(TEN)).event, local, acked, 10);
    hide BeforeRead, Build;
  }

  /** The last four events. */
  lemma OvertakenTail(c: Conn)
    requires Idle(c, 1001, 1001, 10)
    ensures var es := [ReadyFor(true, Bytes(TEN)), ArrivalOf(AckOf(1011, 0)), ArrivalOf(AckOf(1001, 10)),
                       ReadyFor(true, Bytes(TEN))];
            Legal(c, es) && MaxGrant(c, es, 1011) == 1011 && LocalPos(Run(c, es)) == 1021
  {
    var first, read, shut := ArrivalOf(AckOf(1001, 10)), ReadyFor(true, Bytes(TEN)), ArrivalOf(AckOf(1011, 0));
    hide Step, Enabled, Raised, Legal, MaxGrant, Run, ReadyFor, ArrivalOf, AckOf;
    ReadEvent(c, 1001, 1001, 1011);
    var c3 := Step(c, read);
    AckEvent(c3, 1011, 1001, 10, 1011, 0, 1011);
    var c4 := Step(c3, shut);
    AckEvent(c4, 1011, 1011, 0, 1001, 10, 1011);
    var c5 := Step(c4, first);
    ReadEvent(c5, 1011, 1011, 1011);
    var c6 := Step(c5, read);
    NoEvent(c6, 1011);
    OneEvent(c5, read, [], 1011);
    OneEvent(c4, first, [read], 1011);
    OneEvent(c3, shut, [first, read], 1011);
    OneEvent(c, read, [shut, first, read], 1011);
    assert [read] + [] == [read] && [first] + [read] == [first, read];
    assert [shut] + [first, read] == [shut, first, read] && [read] + [shut, first, read] == [read, shut, first, read];
  }

  /** A packet overtaken by a later one lets local_seq pass every edge the peer ever granted. */
  lemma OvertakenAckPassesEveryGrant(m: Subtraction)
    ensures Legal(Opened(m), StaleRun())
    ensures MaxGrant(Opened(m), StaleRun(), 1001) == 1011 < LocalPos(Run(Opened(m), StaleRun())) == 1021
  {
    var connect, first, read, shut := ReadyFor(false, WouldBlock), ArrivalOf(AckOf(1001, 10)),
                                      ReadyFor(true, Bytes(TEN)),
                                      ArrivalOf(AckOf(1011, 0));
    assert StaleRun() == [connect] + ([first] + [read, shut, first, read]);
    hide Step, Enabled, Legal, MaxGrant, Run, ReadyFor, ArrivalOf, AckOf, Opened, StaleRun;
    var c0 := Opened(m);
    ConnectEvent(m);
    var c1 := Step(c0, connect);
    FirstAck(c1, 1001);
    var c2 := Step(c1, first);
    OvertakenTail(c2);
    OneEvent(c1, first, [read, shut, first, read], 1001);
    OneEvent(c0, connect, [first] + [read, shut, first, read], 1001);
  }
}
