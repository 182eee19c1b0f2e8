/**
  Flow control toward the app: acknowledgements only move forward, and nothing
  is ever sent beyond the right edge the app granted.
*/
module TcpWindow {
  import opened Words
  import opened TcpQueue
  import opened TcpModel
  import opened TcpAccounting

  /** The largest window a header can announce: 0xFFFF shifted by 14 (section 2.3 of RFC 7323). */
  const MAX_WINDOW := 0x3FFF_C000

  /** From ESTABLISHED until the session starts closing. */
  predicate Live(s: State) {
    s == Established || s == CloseWait || s == FinWait1 || s == LastAck
  }

  /** Sent but not acknowledged, as get_send_window computes it. */
  function Behind(c: Conn): u32 {
    Mod32(c.t.localSeq - c.t.acked)
  }

  /** The unbounded position of `acked`. */
  function AckedPos(c: Conn): int {
    LocalPos(c) - Behind(c)
  }

  /** The right edge the session works with: acked plus the last announced window. */
  function RightEdge(c: Conn): int {
    AckedPos(c) + c.t.sendWindow
  }

  predicate WindowInv(c: Conn) {
    && c.t.sendScale <= 14
    && c.t.sendWindow <= MAX_WINDOW
    && (Live(c.t.state) ==> Behind(c) <= MAX_WINDOW)
  }

  /**
    The acknowledgements that compare_u32 takes for newer although they are older:
    over unbounded differences three words at the edges of its odd distances; over
    wrapped ones those 2^31-1 below acked, when acked is below local_seq, in the
    signed views.
  */
  predicate OddWords(m: Subtraction, ackno: u32, acked: u32, local: u32) {
    match m
    case Unbounded => ackno == 0 && local == 0x8000_0000 && acked == 0x7FFF_FFFF
    case Wrapped => Signed32(acked) - Signed32(ackno) == 0x7FFF_FFFF && Signed32(acked) < Signed32(local)
  }

  predicate OddAck(c: Conn, p: Packet) {
    OddWords(c.t.sub, p.ackno, c.t.acked, c.t.localSeq)
  }

  lemma {:induction false} PowMonotone(a: nat, b: nat)
    requires a <= b
    ensures Pow2(a) <= Pow2(b)
    decreases b - a
  {
    if a == b {
    } else {
      PowMonotone(a, b - 1);
    }
  }

  lemma PowerOf14()
    ensures Pow2(14) == 0x4000
  {
    assert Pow2(7) == 0x80;
    assert Pow2(10) == 0x400;
    assert Pow2(13) == 0x2000;
  }

  /** A 16-bit window scaled by at most 14 never wraps. */
  lemma ScaledWindow(w: u16, scale: nat)
    requires scale <= 14
    ensures w * Pow2(scale) <= MAX_WINDOW && Mod32(w * Pow2(scale)) == w * Pow2(scale)
  {
    PowMonotone(scale, 14);
    PowerOf14();
    hide Pow2, Mod32;
    var p := Pow2(scale);
    MulMonotone(w, 0xFFFF, p, 0x4000);
    SmallWord(w * p);
  }

  lemma SmallWord(x: int)
    requires 0 <= x <= MAX_WINDOW
    ensures Mod32(x) == x
  {}

  lemma MulMonotone(a: nat, b: nat, c: nat, d: nat)
    requires a <= b && c <= d
    ensures a * c <= b * d
  {
    assert a * c <= b * c;
    assert b * c <= b * d;
  }

  /**
    For a live session the window is what is left of send_window beyond the bytes
    in flight. It is closed exactly when there is nothing left, or a wrapped
    difference takes acked for newer than local_seq: then the else-value of
    get_send_window exceeds every window.
  */
  lemma SendWindowMeaning(c: Conn)
    requires WindowInv(c) && Live(c.t.state)
    ensures GetSendWindow(c.t) ==
            if Behind(c) < c.t.sendWindow && Alike(c.t.sub, c.t.acked, c.t.localSeq)
            then c.t.sendWindow - Behind(c) else 0
    ensures GetSendWindow(c.t) > 0 ==> GetSendWindow(c.t) == RightEdge(c) - LocalPos(c)
  {
    CompareByDistance(c.t.acked, c.t.localSeq);
    WrappedIsSignedOrder(c.t.acked, c.t.localSeq);
    ForwardDistance(c.t.acked, c.t.localSeq);
    assert c.t.sub == Unbounded || c.t.sub == Wrapped;
    hide CompareU32;
  }

  /** An acknowledgement compared in words: taken as one between acked and local_seq. */
  predicate TakenAsNewer(m: Subtraction, ackno: u32, acked: u32, local: u32) {
    Mod32(ackno + 1) != local && CompareU32(m, ackno, local) < 0 && CompareU32(m, ackno, acked) > 0
  }

  /** Such an acknowledgement is older than `acked` only for the odd words, and then by 2^31-1. */
  lemma OldAckAccepted(m: Subtraction, ackno: u32, acked: u32, local: u32)
    requires ackno != local && Mod32(local - acked) <= MAX_WINDOW
    ensures TakenAsNewer(m, ackno, acked, local) && Mod32(local - ackno) > Mod32(local - acked)
            <==> OddWords(m, ackno, acked, local)
    ensures OddWords(m, ackno, acked, local) ==> Mod32(local - ackno) == Mod32(local - acked) + 0x7FFF_FFFF
  {
    ForwardDistance(ackno, local);
    ForwardDistance(acked, local);
    match m
    case Unbounded =>
      CompareByDistance(ackno, local);
      CompareByDistance(ackno, acked);
      ForwardDistance(ackno, acked);
    case Wrapped =>
      WrappedIsSignedOrder(ackno, local);
      WrappedIsSignedOrder(ackno, acked);
  }

  lemma AckedAfter(c: Conn, p: Packet, ok: bool)
    ensures var d := HandleOtherAck(c, p, ok);
            && d.t.localSeq == c.t.localSeq
            && d.t.acked == if TakenAsNewer(c.t.sub, p.ackno, c.t.acked, c.t.localSeq) then p.ackno else c.t.acked
  {
    WriteRstWindowQuiet(c, ok);
    hide WriteRst, CompareU32, Mod32;
  }

  /** `acked` never moves back, with exactly these exceptions. */
  lemma AckNeverMovesBack(c: Conn, p: Packet, ok: bool)
    requires Behind(c) <= MAX_WINDOW && p.ackno != c.t.localSeq
    ensures var d := HandleOtherAck(c, p, ok);
            d.t.localSeq == c.t.localSeq && (Behind(d) <= Behind(c) <==> !OddAck(c, p))
  {
    hide HandleOtherAck, Mod32, TakenAsNewer, OddWords;
    AckedAfter(c, p, ok);
    OldAckAccepted(c.t.sub, p.ackno, c.t.acked, c.t.localSeq);
  }

  /** A misjudged acknowledgement moves `acked` back by 2^31-1. */
  lemma OddAckMovesBack(c: Conn, p: Packet, ok: bool)
    requires OddAck(c, p) && Behind(c) <= MAX_WINDOW
    ensures var d := HandleOtherAck(c, p, ok); d.t.acked == p.ackno && Behind(d) == Behind(c) + 0x7FFF_FFFF
  {
    assert p.ackno != c.t.localSeq;
    hide HandleOtherAck, Mod32, TakenAsNewer, OddWords;
    AckedAfter(c, p, ok);
    OldAckAccepted(c.t.sub, p.ackno, c.t.acked, c.t.localSeq);
  }

  // ---------- handlers that leave the window alone ----------

  predicate WindowQuiet(c: Conn, d: Conn) {
    && d.t.localSeq == c.t.localSeq && d.t.acked == c.t.acked
    && d.t.sendWindow == c.t.sendWindow && d.t.sendScale == c.t.sendScale
    && LocalPos(d) == LocalPos(c)
    && (Live(d.t.state) ==> Live(c.t.state))
  }

  lemma WriteRstWindowQuiet(c: Conn, ok: bool)
    ensures WindowQuiet(c, WriteRst(c, ok))
  {
  }

  lemma {:induction false} ForwardWindowQuiet(c: Conn, buffer: int, sends: seq<SendStep>)
    requires AllSound(c.t.forward) && |sends| >= |c.t.forward|
    ensures WindowQuiet(c, Forward(c, buffer, sends).0) && Forward(c, buffer, sends).0.t.state == c.t.state
    ensures Forward(c, buffer, sends).0.t.dest == c.t.dest
    decreases |c.t.forward|
  {
    if !CanForward(c.t, buffer) {
    } else {
      var c1 := SendOnce(c, sends[0]);
      if |c1.t.forward| < |c.t.forward| {
        ForwardWindowQuiet(c1, buffer - (c1.log.advanced - c.log.advanced), sends[1..]);
      }
    }
  }

  lemma AcknowledgeWindowQuiet(c: Conn, fwd: bool, after: SendBuffer, ok: bool, now: int)
    ensures WindowQuiet(c, Acknowledge(c, fwd, after, ok, now))
  {
  }

  lemma MonitorWindowQuiet(c: Conn, b: SendBuffer, ms: int, ok: bool, ctlOk: bool)
    ensures WindowQuiet(c, Monitor(c, b, ms, ok, ctlOk))
  {
  }

  lemma CheckSessionWindowQuiet(c: Conn, now: int, sessions: int, maxSessions: int, ok: bool)
    requires maxSessions > 0
    ensures WindowQuiet(c, CheckSession(c, now, sessions, maxSessions, ok).0)
  {
  }

  // ---------- handlers that move it ----------

  /** What one step may do to the window. */
  predicate WindowStep(c: Conn, d: Conn) {
    && WindowInv(d)
    && LocalPos(c) <= LocalPos(d)
    && (Live(c.t.state) && Live(d.t.state) ==> AckedPos(c) <= AckedPos(d))
    && (Live(c.t.state) && LocalPos(c) < LocalPos(d) ==> Live(d.t.state) && LocalPos(d) <= RightEdge(d))
    && (!Live(c.t.state) && Live(d.t.state) ==> AckedPos(d) == LocalPos(d))
  }

  lemma HandleCurrentWindow(c: Conn, p: Packet, ok: bool)
    requires WindowInv(c) && (!p.ack || p.ackno == c.t.localSeq)
    ensures WindowStep(c, HandleCurrent(c, p, ok))
    ensures HandleCurrent(c, p, ok).t.sendWindow == c.t.sendWindow
  {
    assert Mod32(0) == 0;
    hide Build, Mod32, CompareU32, Shr, Pow2;
  }

  lemma HandleOtherAckWindow(c: Conn, p: Packet, ok: bool)
    requires WindowInv(c) && p.ackno != c.t.localSeq
    requires Live(c.t.state) ==> !OddAck(c, p)
    ensures WindowStep(c, HandleOtherAck(c, p, ok))
    ensures HandleOtherAck(c, p, ok).t.sendWindow == c.t.sendWindow
  {
    if Live(c.t.state) {
      AckNeverMovesBack(c, p, ok);
    }
  }

  lemma HandleFlagsWindow(c: Conn, p: Packet, ok: bool)
    requires WindowInv(c) && (Live(c.t.state) && !p.rst ==> !OddAck(c, p))
    ensures WindowStep(c, HandleFlags(c, p, ok))
  {
    if p.rst {
    } else if !p.ack || p.ackno == c.t.localSeq {
      HandleCurrentWindow(c, p, ok);
    } else {
      HandleOtherAckWindow(c, p, ok);
    }
  }

  lemma StampWindow(c: Conn, p: Packet, now: int)
    requires WindowInv(c)
    ensures WindowStep(c, Stamp(c, p, now)) && Stamp(c, p, now).t.state == c.t.state
    ensures Stamp(c, p, now).t.sendWindow == p.window * Pow2(c.t.sendScale)
    ensures LocalPos(Stamp(c, p, now)) == LocalPos(c) && AckedPos(Stamp(c, p, now)) == AckedPos(c)
  {
    ScaledWindow(p.window, c.t.sendScale);
  }

  lemma HandleOpenWindow(c: Conn, p: Packet, ok: bool)
    requires WindowInv(c) && |p.data| < 0x1_0000 && (Live(c.t.state) && !p.rst ==> !OddAck(c, p))
    ensures WindowStep(c, HandleOpen(c, p, ok))
  {
    hide HandleFlags, WriteRst;
    if p.data != [] && (c.t.socket < 0 || c.t.state == CloseWait) {
      WriteRstWindowQuiet(c, ok);
    } else if p.data != [] {
      var q := Queue(c, p);
      assert WindowQuiet(c, q) && q.t.state == c.t.state;
      HandleFlagsWindow(q, p, ok);
    } else {
      HandleFlagsWindow(c, p, ok);
    }
  }

  lemma ArriveWindow(c: Conn, p: Packet, now: int, sendOk: bool, ok: bool)
    requires WindowInv(c) && |p.data| < 0x1_0000 && c.t.dest != TLS_PORT
    requires Live(c.t.state) && !p.urg && !p.rst ==> !OddAck(c, p)
    ensures WindowStep(c, HandlePacket(c, p, now, sendOk, ok))
  {
    if p.urg {
    } else if c.t.state == Closing || c.t.state == Close {
      WriteRstWindowQuiet(c, ok);
    } else {
      StampWindow(c, p, now);
      HandleOpenWindow(Stamp(c, p, now), p, ok);
    }
  }

  /** n more bytes in flight. */
  lemma BehindGrows(local: u32, acked: u32, n: nat)
    requires Mod32(local - acked) + n < 0x1_0000_0000
    ensures Mod32(Mod32(local + n) - acked) == Mod32(local - acked) + n
  {
    var behind := Mod32(local - acked);
    assert Mod32(behind + n) == behind + n && Mod32(acked) == acked;
    hide Mod32;
    ModAdd(local - acked, n);
    ModOfDifference(acked, local + n);
    assert local + n - acked == local - acked + n;
  }

  lemma WriteFinWindow(c: Conn, ok: bool)
    requires WindowInv(c) && IsOpen(c.t) && GetSendWindow(c.t) > 0
    ensures WindowStep(c, WriteFin(c, ok))
  {
    SendWindowMeaning(c);
    BehindGrows(c.t.localSeq, c.t.acked, 1);
    hide GetSendWindow, Mod32, Build;
  }

  lemma ReadEofWindow(c: Conn, ok: bool)
    requires WindowInv(c) && IsOpen(c.t) && GetSendWindow(c.t) > 0
    ensures WindowStep(c, ReadEof(c, ok))
  {
    hide WriteRst, WriteFin, GetSendWindow;
    if c.t.forward == [] {
      WriteFinWindow(c, ok);
    } else {
      WriteRstWindowQuiet(c, ok);
    }
  }

  lemma ReadDataWindow(c: Conn, data: seq<u8>, ok: bool)
    requires WindowInv(c) && IsOpen(c.t) && 0 < |data| <= GetSendWindow(c.t)
    ensures WindowStep(c, ReadData(c, data, ok))
  {
    SendWindowMeaning(c);
    BehindGrows(c.t.localSeq, c.t.acked, |data|);
  }

  /** The idle timer has no part in the window. */
  lemma TimeWindow(c: Conn, now: int)
    ensures var d := c.(t := c.t.(time := now));
            WindowQuiet(c, d) && (WindowInv(c) ==> WindowInv(d)) && GetSendWindow(d.t) == GetSendWindow(c.t)
  {
  }

  lemma ReadSocketWindow(c: Conn, readable: bool, recv: RecvResult, ok: bool, now: int)
    requires WindowInv(c) && (recv.Bytes? && IsOpen(c.t) ==> |recv.data| <= ReadSize(c.t))
    ensures WindowStep(c, ReadSocket(c, readable, recv, ok, now))
  {
    hide GetSendWindow, ReadEof, ReadData, WriteRst, Mod32, LocalPos;
    if IsOpen(c.t) && readable && GetSendWindow(c.t) > 0 {
      var c1 := c.(t := c.t.(time := now));
      TimeWindow(c, now);
      WriteRstWindowQuiet(c1, ok);
      ReadEofWindow(c1, ok);
      if recv.Bytes? && recv.data != [] {
        ReadDataWindow(c1, recv.data, ok);
      }
    }
  }

  lemma BeforeReadWindowQuiet(c: Conn, e: SocketEvent)
    requires AllSound(c.t.forward) && |e.sends| >= |c.t.forward|
    ensures WindowQuiet(c, BeforeRead(c, e))
  {
    var buffer := GetReceiveBuffer(c.t.socket, e.before);
    ForwardWindowQuiet(c, buffer, e.sends);
    var f := if e.writable then Forward(c, buffer, e.sends) else (c, false);
    AcknowledgeWindowQuiet(f.0, f.1, e.after, e.ackOk, e.now);
  }

  lemma SocketStepWindow(c: Conn, e: SocketEvent)
    requires WindowInv(c) && c.t.dest != TLS_PORT && Enabled0(c, e)
    requires c.t.connectSent != Requested
    ensures WindowStep(c, SocketStep(c, e))
  {
    if e.err {
      WriteRstWindowQuiet(c.(t := c.t.(time := e.now)), e.rstOk);
    } else if c.t.state == Listen {
      WriteRstWindowQuiet(c, e.tunOk);
    } else {
      BeforeReadWindowQuiet(c, e);
      ReadSocketWindow(BeforeRead(c, e), e.readable, e.recv, e.tunOk, e.now);
    }
  }

  predicate Enabled0(c: Conn, e: SocketEvent) {
    && (forall s | s in c.t.forward :: Sound(s)) && |e.sends| >= |c.t.forward|
    && (e.recv.Bytes? && !e.err && IsOpen(BeforeRead(c, e).t) ==> |e.recv.data| <= ReadSize(BeforeRead(c, e).t))
  }

  /** The odd acknowledgement is not handled by a live session. */
  predicate NoOddAck(c: Conn, e: Event) {
    e.Arrive? && Live(c.t.state) && !e.packet.urg && !e.packet.rst ==> !OddAck(c, e.packet)
  }

  /**
    Over every step outside port 443: `acked` does not move back, and what is
    sent after ESTABLISHED stays within acked + window.
  */
  lemma StepKeepsWindow(c: Conn, e: Event)
    requires Inv(c) && WindowInv(c) && c.t.dest != TLS_PORT && Enabled(c, e) && NoOddAck(c, e)
    ensures WindowStep(c, Step(c, e))
  {
    hide HandlePacket, SocketStep, Monitor, CheckSession, LocalPos;
    match e
    case Arrive(p, now, sendOk, ok) => ArriveWindow(c, p, now, sendOk, ok);
    case Ready(ev) => SocketStepWindow(c, ev);
    case Watch(b, ms, ok, ctlOk) => MonitorWindowQuiet(c, b, ms, ok, ctlOk);
    case Tick(now, sessions, maxSessions, ok) => CheckSessionWindowQuiet(c, now, sessions, maxSessions, ok);
  }

  // ---------- runs ----------

  predicate NoOddRun(c: Conn, es: seq<Event>)
    requires Legal(c, es)
    decreases |es|
  {
    es == [] || (NoOddAck(c, es[0]) && NoOddRun(Step(c, es[0]), es[1..]))
  }

  function Max(a: int, b: int): int {
    if a < b then b else a
  }

  /** The largest right edge in force at any point of the run while the session is live. */
  function MaxEdge(c: Conn, es: seq<Event>): int
    requires Legal(c, es)
    decreases |es|
  {
    if es == [] then RightEdge(c)
    else
      var rest := MaxEdge(Step(c, es[0]), es[1..]);
      if Live(Step(c, es[0]).t.state) then Max(RightEdge(c), rest) else RightEdge(c)
  }

  lemma {:induction false} NothingAfterLive(c: Conn, es: seq<Event>)
    requires Inv(c) && c.t.dest != TLS_PORT && Legal(c, es) && (c.t.state == Closing || c.t.state == Close)
    ensures LocalPos(Run(c, es)) == LocalPos(c)
    decreases |es|
  {
    if es == [] {
    } else {
      StepKeeps(c, es[0]);
      ClosedSendsNothing(c, es[0]);
      NothingAfterLive(Step(c, es[0]), es[1..]);
    }
  }

  lemma ClosedSendsNothing(c: Conn, e: Event)
    requires Inv(c) && c.t.dest != TLS_PORT && Enabled(c, e) && (c.t.state == Closing || c.t.state == Close)
    ensures LocalPos(Step(c, e)) == LocalPos(c)
  {
    match e
    case Arrive(p, now, sendOk, ok) =>
    case Ready(ev) =>
      if !ev.err {
        BeforeReadWindowQuiet(c, ev);
        BeforeReadKeeps(c, ev);
      }
    case Watch(b, ms, ok, ctlOk) => MonitorWindowQuiet(c, b, ms, ok, ctlOk);
    case Tick(now, sessions, maxSessions, ok) => CheckSessionWindowQuiet(c, now, sessions, maxSessions, ok);
  }

  /**
    Send-window safety over whole runs: nothing is ever sent beyond the largest
    right edge that was in force since the session became live.
  */
  lemma {:induction false} NeverBeyondEdge(c: Conn, es: seq<Event>)
    requires Inv(c) && WindowInv(c) && c.t.dest != TLS_PORT && Legal(c, es) && NoOddRun(c, es)
    requires Live(c.t.state)
    ensures LocalPos(Run(c, es)) <= Max(LocalPos(c), MaxEdge(c, es))
    decreases |es|
  {
    if es == [] {
    } else {
      var d := Step(c, es[0]);
      StepKeeps(c, es[0]);
      StepKeepsWindow(c, es[0]);
      if Live(d.t.state) {
        NeverBeyondEdge(d, es[1..]);
        EdgeCovers(d, es[1..]);
      } else {
        NothingAfterLive(d, es[1..]);
      }
    }
  }

  lemma EdgeCovers(c: Conn, es: seq<Event>)
    requires Legal(c, es)
    ensures RightEdge(c) <= MaxEdge(c, es)
  {
  }

  /** A session that becomes live starts level, so from then on the edge alone bounds what is sent. */
  lemma SendWindowSafety(c: Conn, e: Event, es: seq<Event>)
    requires Inv(c) && WindowInv(c) && c.t.dest != TLS_PORT && Legal(c, [e] + es) && NoOddRun(c, [e] + es)
    requires !Live(c.t.state) && Live(Step(c, e).t.state)
    ensures LocalPos(Run(c, [e] + es)) <= MaxEdge(Step(c, e), es)
  {
    assert ([e] + es)[1..] == es;
    StepKeeps(c, e);
    StepKeepsWindow(c, e);
    NeverBeyondEdge(Step(c, e), es);
    EdgeCovers(Step(c, e), es);
  }

  lemma NewSessionWindow(m: Subtraction, p: Packet, mss: u16, scale: nat, isn: u32, dest: u16, socket: int, now: int,
                         b: SendBuffer)
    requires |p.data| < 0x1_0000 && scale <= 14
    ensures WindowInv(NewConn(m, p, mss, scale, isn, dest, socket, now, b))
  {
    ScaledWindow(p.window, scale);
  }

  /** While a session is live `acked` is at most local_seq and never moves back, whatever the run. */
  lemma {:induction false} RunKeepsAcked(c: Conn, es: seq<Event>)
    requires Inv(c) && WindowInv(c) && c.t.dest != TLS_PORT && Legal(c, es) && NoOddRun(c, es)
    ensures WindowInv(Run(c, es))
    ensures Live(c.t.state) && Live(Run(c, es).t.state) ==> AckedPos(c) <= AckedPos(Run(c, es)) <= LocalPos(Run(c, es))
    ensures Live(c.t.state) ==> Rank(Run(c, es).t.state) >= 2
    decreases |es|
  {
    if es == [] {
    } else {
      StepKeeps(c, es[0]);
      StepKeepsWindow(c, es[0]);
      RunKeepsAcked(Step(c, es[0]), es[1..]);
      RunKeeps(Step(c, es[0]), es[1..]);
    }
  }

  /** The right edge a packet itself grants: its acknowledgement plus its window. */
  function GrantedEdge(c: Conn, p: Packet): int {
    LocalPos(c) - Mod32(c.t.localSeq - p.ackno) + p.window * Pow2(c.t.sendScale)
  }

  /** The acknowledgement of a packet is not older than `acked`. */
  predicate Current(c: Conn, p: Packet) {
    p.ack && Mod32(c.t.localSeq - p.ackno) <= Behind(c)
  }

  /**
    The window of a packet is applied at `acked`, not at the packet's own
    acknowledgement: the edge in force is one the packet granted exactly when
    its acknowledgement is not older than `acked`.
  */
  lemma EdgeIsGrantedIff(c: Conn, p: Packet, now: int, sendOk: bool, ok: bool)
    requires WindowInv(c) && Live(c.t.state) && c.t.dest != TLS_PORT && |p.data| < 0x1_0000
    requires p.ack && !p.urg && (!p.rst ==> !OddAck(c, p))
    ensures var d := HandlePacket(c, p, now, sendOk, ok);
            Live(d.t.state) ==> (RightEdge(d) <= GrantedEdge(c, p) <==> Current(c, p))
  {
    hide HandleOpen;
    StampWindow(c, p, now);
    OpenEdge(Stamp(c, p, now), p, ok);
  }

  /** What a packet may do to the words of the window: take its acknowledgement over, no more. */
  predicate AckTaken(c: Conn, d: Conn, p: Packet) {
    && LocalPos(d) == LocalPos(c) && d.t.sendWindow == c.t.sendWindow && d.t.localSeq == c.t.localSeq
    && (d.t.acked == c.t.acked || (p.ack && !p.rst && d.t.acked == p.ackno))
  }

  lemma CurrentTaken(c: Conn, p: Packet, ok: bool)
    requires !p.rst
    ensures AckTaken(c, HandleCurrent(c, p, ok), p)
  {
    hide Build, Mod32;
  }

  lemma OtherTaken(c: Conn, p: Packet, ok: bool)
    requires p.ack && !p.rst
    ensures AckTaken(c, HandleOtherAck(c, p, ok), p)
  {
    hide WriteRst, Mod32, CompareU32;
    WriteRstWindowQuiet(c, ok);
  }

  lemma FlagsTaken(c: Conn, p: Packet, ok: bool)
    ensures AckTaken(c, HandleFlags(c, p, ok), p)
  {
    hide HandleCurrent, HandleOtherAck;
    if !p.rst {
      CurrentTaken(c, p, ok);
      if p.ack {
        OtherTaken(c, p, ok);
      }
    }
  }

  /** What a handled packet does to `acked`: nothing, or it takes over its own newer acknowledgement. */
  lemma FlagsEdge(c: Conn, p: Packet, ok: bool)
    requires Behind(c) <= MAX_WINDOW && (!p.rst ==> !OddAck(c, p))
    ensures var d := HandleFlags(c, p, ok);
            && LocalPos(d) == LocalPos(c) && d.t.sendWindow == c.t.sendWindow
            && (Behind(d) == Behind(c) || (Current(c, p) && Behind(d) == Mod32(c.t.localSeq - p.ackno)))
  {
    FlagsTaken(c, p, ok);
    hide HandleCurrent;
    if !p.rst && p.ack && p.ackno != c.t.localSeq {
      AckNeverMovesBack(c, p, ok);
      hide HandleOtherAck;
    }
  }

  lemma OpenEdge(c: Conn, p: Packet, ok: bool)
    requires Behind(c) <= MAX_WINDOW && (!p.rst ==> !OddAck(c, p)) && |p.data| < 0x1_0000
    ensures var d := HandleOpen(c, p, ok);
            && LocalPos(d) == LocalPos(c) && d.t.sendWindow == c.t.sendWindow
            && (Behind(d) == Behind(c) || (Current(c, p) && Behind(d) == Mod32(c.t.localSeq - p.ackno)))
  {
    hide HandleFlags, WriteRst;
    if p.data != [] && (c.t.socket < 0 || c.t.state == CloseWait) {
      WriteRstWindowQuiet(c, ok);
    } else if p.data != [] {
      FlagsEdge(Queue(c, p), p, ok);
    } else {
      FlagsEdge(c, p, ok);
    }
  }

  /** A keep-alive acknowledges one byte less than everything. */
  lemma KeepAliveAck(ackno: u32, acked: u32, local: u32)
    requires ackno != local
    ensures Mod32(ackno + 1) == local <==> Mod32(local - ackno) == 1
  {
  }
}
