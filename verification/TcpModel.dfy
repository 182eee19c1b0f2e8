/**
  The TCP terminator of tcp.c as step functions. A connection is the session
  record together with a log of what it has done so far: the packets written
  to the tun device, the bytes the upstream socket accepted, and the events
  that moved the two sequence numbers. Every answer of the outside world
  (clock, socket buffer, send, recv, tun write) is an argument.
*/
module TcpModel {
  import opened Words
  import opened TcpQueue

  const TCP_INIT_TIMEOUT := 30
  const TCP_IDLE_TIMEOUT := 3600
  const TCP_CLOSE_TIMEOUT := 30
  const TCP_KEEP_TIMEOUT := 300
  const EPOLL_MIN_CHECK := 100
  const HTTP_PORT: u16 := 80
  const TLS_PORT: u16 := 443

  datatype State = Listen | SynRecv | Established | CloseWait | FinWait1 | LastAck | Closing | Close

  /** connect_sent: how far the CONNECT exchange of a port-443 session has come. */
  datatype Connect = NotSent | Requested | Accepted

  datatype Tcb = Tcb(
    time: int, mss: u16, recvScale: nat, sendScale: nat, recvWindow: u32, sendWindow: u32,
    remoteSeq: u32, localSeq: u32, remoteStart: u32, localStart: u32, acked: u32, lastKeepAlive: int,
    dest: u16, state: State, forward: seq<Segment>, connectSent: Connect,
    socket: int, watchIn: bool, watchOut: bool,
    sub: Subtraction)   // how the build subtracts; constant

  /** A packet written to the tun device. */
  datatype Out = Out(seqno: u32, ackno: u32, window: u32, syn: bool, ack: bool, fin: bool, rst: bool, data: seq<u8>)

  datatype Log = Log(
    tun: seq<Out>,      // packets the tun device took
    up: seq<u8>,        // bytes the upstream socket took
    advanced: nat,      // forwarded bytes as counted against the queue
    lost: nat,          // bytes counted as forwarded although send() failed
    down: seq<u8>,      // bytes relayed from the socket to the app
    remoteSyn: nat, remoteFin: nat, localSyn: nat, localFin: nat,
    closed: seq<int>)   // arguments of close()

  datatype Conn = Conn(t: Tcb, log: Log)

  /** A segment arriving from the app. */
  datatype Packet = Packet(seqno: u32, ackno: u32, window: u16,
                           syn: bool, ack: bool, fin: bool, rst: bool, psh: bool, urg: bool, data: seq<u8>)

  /** What get_receive_buffer reads from the kernel. */
  datatype SendBuffer = SendBuffer(size: nat, unsent: nat)

  datatype SendResult = Taken(n: nat) | Failed

  /** One answer of send(), and what patch_http_url made of the data before it. */
  datatype SendStep = SendStep(patched: Option<seq<u8>>, result: SendResult)

  datatype RecvResult = Bytes(data: seq<u8>) | Eof | WouldBlock | Broken

  datatype SocketEvent = SocketEvent(
    now: int, err: bool, readable: bool, writable: bool,
    before: SendBuffer, sends: seq<SendStep>, after: SendBuffer,
    rstOk: bool, ackOk: bool, recv: RecvResult, tunOk: bool)

  // ---------- writing to the tun device ----------

  function Build(t: Tcb, data: seq<u8>, syn: bool, ack: bool, fin: bool, rst: bool): Out {
    Out(t.localSeq, if ack then t.remoteSeq else 0, Shr(t.recvWindow, t.recvScale), syn, ack, fin, rst, data)
  }

  /** write_tcp: the packet reaches the app only when the whole write succeeds. */
  function WriteTcp(c: Conn, data: seq<u8>, syn: bool, ack: bool, fin: bool, rst: bool, ok: bool): Conn {
    if ok then c.(log := c.log.(tun := c.log.tun + [Build(c.t, data, syn, ack, fin, rst)])) else c
  }

  /** write_syn_ack, write_ack, write_data and write_fin_ack: a failed write closes the session. */
  function WriteOrClose(c: Conn, data: seq<u8>, syn: bool, fin: bool, ok: bool): Conn {
    var c1 := WriteTcp(c, data, syn, true, fin, false, ok);
    if ok then c1 else c1.(t := c1.t.(state := Closing))
  }

  function WriteAck(c: Conn, ok: bool): Conn {
    WriteOrClose(c, [], false, false, ok)
  }

  function CountRemoteSyn(c: Conn): Conn {
    c.(t := c.t.(remoteSeq := Mod32(c.t.remoteSeq + 1)), log := c.log.(remoteSyn := c.log.remoteSyn + 1))
  }

  function CountRemoteFin(c: Conn): Conn {
    c.(t := c.t.(remoteSeq := Mod32(c.t.remoteSeq + 1)), log := c.log.(remoteFin := c.log.remoteFin + 1))
  }

  function WriteRst(c: Conn, ok: bool): Conn {
    var c1 := if c.t.state == Listen then CountRemoteSyn(c) else c;
    var c2 := WriteTcp(c1, [], false, c.t.state == Listen, false, true, ok);
    if c2.t.state == Close then c2 else c2.(t := c2.t.(state := Closing))
  }

  // ---------- windows ----------

  function GetSendWindow(t: Tcb): u32 {
    var behind := if CompareU32(t.sub, t.acked, t.localSeq) <= 0 then Mod32(t.localSeq - t.acked) else t.acked;
    if behind < t.sendWindow then t.sendWindow - behind else 0
  }

  function GetReceiveBuffer(socket: int, b: SendBuffer): nat {
    if socket < 0 then 0
    else
      var size := if b.size == 0 then 16384 else b.size;
      if b.unsent < size / 2 then size / 2 - b.unsent else 0
  }

  /** get_receive_window; the queue is summed in a 32-bit word. */
  function GetReceiveWindow(t: Tcb, b: SendBuffer): (w: u32) {
    var toForward := Mod32(Unsent(t.forward));
    var buffer := Mod32(GetReceiveBuffer(t.socket, b));
    var max := Mod32(0xFFFF * Pow2(t.recvScale));
    var capped := if buffer > max then max else buffer;
    var window := if toForward < capped then capped - toForward else 0;
    if Shr(window, t.recvScale) == 0 then 0 else window
  }

  // ---------- packets from the app ----------

  /** The SYN packet that opens a session; None of the fields depend on an earlier session. */
  function NewConn(m: Subtraction, p: Packet, mss: u16, scale: nat, isn: u32, dest: u16, socket: int, now: int,
                   b: SendBuffer): Conn
    requires |p.data| < 0x1_0000
  {
    var t := Tcb(now, mss, scale, scale, 0, Mod32(p.window * Pow2(scale)),
                 p.seqno, isn, p.seqno, isn, 0, 0, dest, Listen,
                 if p.data == [] then [] else [Segment(p.seqno, |p.data|, 0, p.psh, p.data)],
                 if dest == HTTP_PORT then Accepted else NotSent, socket, false, true, m);
    Conn(t.(recvWindow := GetReceiveWindow(t, b)), Log([], [], 0, 0, [], 0, 0, 0, 0, []))
  }

  function Queue(c: Conn, p: Packet): Conn
    requires |p.data| < 0x1_0000
  {
    c.(t := c.t.(forward := QueueTcp(c.t.sub, c.t.forward, c.t.remoteSeq, p.seqno, p.psh, p.data)))
  }

  /** The port-443 prelude of handle_tcp: ask the proxy to connect. */
  function RequestConnect(c: Conn, sendOk: bool, ok: bool): Conn {
    if c.t.dest == TLS_PORT && c.t.connectSent == NotSent then
      if sendOk then c.(t := c.t.(connectSent := Requested, state := Listen)) else WriteRst(c, ok)
    else c
  }

  /** handle_tcp for a packet that belongs to a known session. */
  function HandlePacket(c: Conn, p: Packet, now: int, sendOk: bool, ok: bool): Conn
    requires |p.data| < 0x1_0000
  {
    if p.urg then c else HandleKnown(RequestConnect(c, sendOk, ok), p, now, ok)
  }

  function HandleKnown(c: Conn, p: Packet, now: int, ok: bool): Conn
    requires |p.data| < 0x1_0000
  {
    if c.t.dest == TLS_PORT && c.t.connectSent != Accepted then Queue(c, p)
    else if c.t.state == Closing || c.t.state == Close then WriteRst(c, ok)
    else HandleOpen(Stamp(c, p, now), p, ok)
  }

  /** Every handled packet refreshes the idle timer and the peer's window. */
  function Stamp(c: Conn, p: Packet, now: int): Conn {
    c.(t := c.t.(time := now, sendWindow := Mod32(p.window * Pow2(c.t.sendScale))))
  }

  function HandleOpen(c: Conn, p: Packet, ok: bool): Conn
    requires |p.data| < 0x1_0000
  {
    if p.data != [] && (c.t.socket < 0 || c.t.state == CloseWait) then WriteRst(c, ok)
    else HandleFlags(if p.data != [] then Queue(c, p) else c, p, ok)
  }

  function HandleFlags(c: Conn, p: Packet, ok: bool): Conn {
    if p.rst then c.(t := c.t.(state := Closing))
    else if !p.ack || p.ackno == c.t.localSeq then HandleCurrent(c, p, ok)
    else HandleOtherAck(c, p, ok)
  }

  /** A packet without ACK, or one that acknowledges everything sent. */
  function HandleCurrent(c: Conn, p: Packet, ok: bool): Conn {
    if p.syn then c
    else if p.fin then
      match c.t.state
      case Established =>
        if c.t.forward == [] then
          var c1 := WriteAck(CountRemoteFin(c), ok);
          if ok then c1.(t := c1.t.(state := CloseWait)) else c1
        else c.(t := c.t.(state := CloseWait))
      case FinWait1 =>
        var c1 := WriteAck(CountRemoteFin(c), ok);
        if ok then c1.(t := c1.t.(state := Close)) else c1
      case _ => c
    else if p.ack then
      var c1 := c.(t := c.t.(acked := p.ackno));
      match c.t.state
      case SynRecv => c1.(t := c1.t.(state := Established))
      case LastAck => c1.(t := c1.t.(state := Closing))
      case _ => c1
    else c
  }

  /** A packet that acknowledges something else than local_seq. */
  function HandleOtherAck(c: Conn, p: Packet, ok: bool): Conn {
    if Mod32(p.ackno + 1) == c.t.localSeq then c
    else if CompareU32(c.t.sub, p.ackno, c.t.localSeq) < 0 then
      if CompareU32(c.t.sub, p.ackno, c.t.acked) <= 0 then c else c.(t := c.t.(acked := p.ackno))
    else WriteRst(c, ok)
  }

  // ---------- socket events ----------

  function Min(a: int, b: int): int {
    if a < b then a else b
  }

  /** The bytes of one send call: the rest of the head segment, patched on port 80. */
  function Payload(t: Tcb, s: SendStep): seq<u8>
    requires t.forward != [] && Sound(t.forward[0])
  {
    var h := t.forward[0];
    if t.dest == HTTP_PORT && s.patched.Some? then s.patched.value else h.data[h.sent..h.len]
  }

  predicate CanForward(t: Tcb, buffer: int) {
    && t.forward != []
    && Mod32(t.forward[0].seqno + t.forward[0].sent) == t.remoteSeq
    && t.forward[0].len - t.forward[0].sent < buffer
  }

  /** `n` bytes of the head segment count as sent; `raw` is what the socket took, `lost` what it did not. */
  function SendHead(c: Conn, n: nat, raw: seq<u8>, lost: nat): Conn
    requires c.t.forward != [] && c.t.forward[0].sent + n <= c.t.forward[0].len
  {
    var h := c.t.forward[0];
    var sent := h.sent + n;
    c.(t := c.t.(remoteSeq := Mod32(h.seqno + sent),
                 forward := if sent == h.len then c.t.forward[1..] else [h.(sent := sent)] + c.t.forward[1..]),
       log := c.log.(up := c.log.up + raw, advanced := c.log.advanced + n, lost := c.log.lost + lost))
  }

  /**
    One send call. `sent > len` compares a signed with an unsigned number, so
    the -1 of a failed send counts as everything sent: the error branch that
    follows it is never taken.
  */
  function SendOnce(c: Conn, s: SendStep): Conn
    requires c.t.forward != [] && Sound(c.t.forward[0])
  {
    var h := c.t.forward[0];
    var rest := h.len - h.sent;
    match s.result
    case Failed => SendHead(c, rest, [], rest)
    case Taken(m) =>
      var data := Payload(c.t, s);
      var taken := Min(m, |data|);
      SendHead(c, Min(taken, rest), data[..taken], 0)
  }

  /**
    The forward loop of check_tcp_socket: it goes on while whole segments
    leave. `sends` holds the answers to the successive send calls, at least one
    for every queued segment. The flag says whether anything was sent.
  */
  function Forward(c: Conn, buffer: int, sends: seq<SendStep>): (r: (Conn, bool))
    requires AllSound(c.t.forward) && |sends| >= |c.t.forward|
    decreases |c.t.forward|
  {
    if !CanForward(c.t, buffer) then (c, false)
    else
      var c1 := SendOnce(c, sends[0]);
      if |c1.t.forward| == |c.t.forward| then (c1, true)
      else (Forward(c1, buffer - (c1.log.advanced - c.log.advanced), sends[1..]).0, true)
  }

  /** After forwarding: publish the new receive window and acknowledge. */
  function Acknowledge(c: Conn, fwd: bool, after: SendBuffer, ok: bool, now: int): Conn {
    var window := GetReceiveWindow(c.t, after);
    var prev := c.t.recvWindow;
    var c1 := c.(t := c.t.(recvWindow := window));
    if fwd || (prev == 0 && window > 0) then
      var c2 := if fwd && c1.t.forward == [] && c1.t.state == CloseWait then CountRemoteFin(c1) else c1;
      var c3 := WriteAck(c2, ok);
      if ok then c3.(t := c3.t.(time := now)) else c3
    else c1
  }

  function CloseSocket(c: Conn): Conn {
    c.(t := c.t.(socket := -1), log := c.log.(closed := c.log.closed + [c.t.socket]))
  }

  /** Tell the app that the upstream is done: count the FIN if it was written. */
  function WriteFin(c: Conn, ok: bool): Conn {
    var f := WriteOrClose(c, [], false, true, ok);
    var g := if ok then f.(t := f.t.(localSeq := Mod32(f.t.localSeq + 1)),
                           log := f.log.(localFin := f.log.localFin + 1)) else f;
    if g.t.state == Established then g.(t := g.t.(state := FinWait1))
    else if g.t.state == CloseWait then g.(t := g.t.(state := LastAck))
    else g
  }

  /** recv() returned 0: send FIN if nothing is queued, reset otherwise, and close the socket. */
  function ReadEof(c: Conn, ok: bool): Conn {
    CloseSocket(if c.t.forward == [] then WriteFin(c, ok) else WriteRst(c, ok))
  }

  function ReadData(c: Conn, data: seq<u8>, ok: bool): Conn {
    var c1 := WriteOrClose(c, data, false, false, ok);
    if ok then c1.(t := c1.t.(localSeq := Mod32(c1.t.localSeq + |data|)),
                   log := c1.log.(down := c1.log.down + data))
    else c1
  }

  /** How much the read step asks recv() for. */
  function ReadSize(t: Tcb): nat {
    Min(GetSendWindow(t), t.mss)
  }

  function ReadSocket(c: Conn, readable: bool, recv: RecvResult, ok: bool, now: int): Conn {
    if (c.t.state == Established || c.t.state == CloseWait) && readable && GetSendWindow(c.t) > 0 then
      var c1 := c.(t := c.t.(time := now));
      match recv
      case Broken => WriteRst(c1, ok)
      case WouldBlock => c1
      case Eof => ReadEof(c1, ok)
      case Bytes(data) => if data == [] then ReadEof(c1, ok) else ReadData(c1, data, ok)
    else c
  }

  /** The socket of a listening session became readable: the proxy answers CONNECT. */
  function ReadConnectReply(c: Conn, recv: RecvResult, ok: bool): Conn {
    match recv
    case Broken => WriteRst(c, ok)
    case WouldBlock => WriteRst(c, ok)
    case Eof => AnswerConnect(c, [], ok)
    case Bytes(data) => AnswerConnect(c, data[..Min(|data|, 12)], ok)
  }

  function AnswerConnect(c: Conn, reply: seq<u8>, ok: bool): Conn {
    if c.t.connectSent != Requested then c
    else if Accepts(reply) then c.(t := c.t.(connectSent := Accepted, state := SynRecv))
    else WriteRst(c, ok)
  }

  /** "HTTP/1.0 200" or "HTTP/1.1 200". */
  predicate Accepts(reply: seq<u8>) {
    reply == [72, 84, 84, 80, 47, 49, 46, 48, 32, 50, 48, 48]
    || reply == [72, 84, 84, 80, 47, 49, 46, 49, 32, 50, 48, 48]
  }

  /** The upstream connection is up: answer the SYN. */
  function Connected(c: Conn, ok: bool, now: int): Conn {
    var c1 := WriteOrClose(CountRemoteSyn(c), [], true, false, ok);
    if ok then c1.(t := c1.t.(time := now, localSeq := Mod32(c1.t.localSeq + 1), state := SynRecv),
                   log := c1.log.(localSyn := c1.log.localSyn + 1))
    else c1
  }

  /** check_tcp_socket. */
  function SocketStep(c: Conn, e: SocketEvent): Conn
    requires AllSound(c.t.forward) && |e.sends| >= |c.t.forward|
  {
    if e.err then WriteRst(c.(t := c.t.(time := e.now)), e.rstOk)
    else if c.t.state == Listen then
      if e.readable then ReadConnectReply(c, e.recv, e.tunOk) else Connected(c, e.tunOk, e.now)
    else
      ReadSocket(BeforeRead(c, e), e.readable, e.recv, e.tunOk, e.now)
  }

  // ---------- periodic work ----------

  /** monitor_tcp_session: choose the events to wait for, and nudge the app when its window is shut. */
  function Monitor(c: Conn, b: SendBuffer, ms: int, ok: bool, ctlOk: bool): Conn {
    var c1 := if IsOpen(c.t) && GetSendWindow(c.t) == 0 then KeepAlive(c, ms, ok) else c;
    var wantIn := (c.t.state == Listen && c.t.connectSent == Requested && c.t.dest == TLS_PORT)
                  || (IsOpen(c.t) && GetSendWindow(c.t) > 0);
    var wantOut := (c.t.state == Listen && !(c.t.connectSent == Requested && c.t.dest == TLS_PORT))
                   || (IsOpen(c.t) && CanForward(c.t, GetReceiveBuffer(c.t.socket, b)));
    Rearm(c1, wantIn, wantOut, ctlOk)
  }

  /** Tell epoll about changed interests; a refusal closes the session. */
  function Rearm(c: Conn, wantIn: bool, wantOut: bool, ctlOk: bool): Conn {
    if wantIn == c.t.watchIn && wantOut == c.t.watchOut then c
    else c.(t := c.t.(watchIn := wantIn, watchOut := wantOut, state := if ctlOk then c.t.state else Closing))
  }

  predicate IsOpen(t: Tcb) {
    t.state == Established || t.state == CloseWait
  }

  /** The keep-alive acknowledges one byte less, then restores remote_seq. */
  function KeepAlive(c: Conn, ms: int, ok: bool): Conn {
    if ms - c.t.lastKeepAlive > EPOLL_MIN_CHECK then
      var c1 := c.(t := c.t.(lastKeepAlive := ms, remoteSeq := Mod32(c.t.remoteSeq - 1)));
      var c2 := WriteAck(c1, ok);
      c2.(t := c2.t.(remoteSeq := Mod32(c2.t.remoteSeq + 1)))
    else c
  }

  /** get_tcp_timeout. */
  function GetTcpTimeout(state: State, sessions: int, maxSessions: int): int
    requires maxSessions > 0
  {
    var base :=
      if state == Listen || state == SynRecv then TCP_INIT_TIMEOUT
      else if state == Established then TCP_IDLE_TIMEOUT
      else TCP_CLOSE_TIMEOUT;
    Scaled(base, sessions, maxSessions)
  }

  /** A timeout shrinks with the share of sessions in use; both divisions truncate as C does. */
  function Scaled(base: int, sessions: int, maxSessions: int): int
    requires maxSessions > 0
  {
    TruncDiv(base * (100 - TruncDiv(sessions * 100, maxSessions)), 100)
  }

  /** A session past its idle timeout: a listening one just closes, others are reset. */
  function Expire(c: Conn, now: int, timeout: int, ok: bool): Conn {
    if c.t.state == Closing || c.t.state == Close || now <= c.t.time + timeout then c
    else if c.t.state == Listen then c.(t := c.t.(state := Closing))
    else WriteRst(c, ok)
  }

  /** A closing session gives up its socket and starts its linger time. */
  function Retire(c: Conn, now: int): Conn {
    if c.t.state != Closing then c
    else
      var s := if c.t.socket >= 0 then CloseSocket(c) else c;
      s.(t := s.t.(time := now, state := Close))
  }

  /** check_tcp_session; the flag asks for the session to be removed. */
  function CheckSession(c: Conn, now: int, sessions: int, maxSessions: int, ok: bool): (Conn, bool)
    requires maxSessions > 0
  {
    var d := Retire(Expire(c, now, GetTcpTimeout(c.t.state, sessions, maxSessions), ok), now);
    (d, d.t.state == Close && d.t.time + TCP_KEEP_TIMEOUT < now)
  }

  // ---------- events and runs ----------

  datatype Event =
    | Arrive(packet: Packet, now: int, sendOk: bool, ok: bool)
    | Ready(event: SocketEvent)
    | Watch(buffer: SendBuffer, ms: int, ok: bool, ctlOk: bool)
    | Tick(now: int, sessions: int, maxSessions: int, ok: bool)

  /** The connection as the read part of check_tcp_socket finds it. */
  function BeforeRead(c: Conn, e: SocketEvent): Conn
    requires AllSound(c.t.forward) && |e.sends| >= |c.t.forward|
  {
    var f := if e.writable then Forward(c, GetReceiveBuffer(c.t.socket, e.before), e.sends) else (c, false);
    Acknowledge(f.0, f.1, e.after, e.ackOk, e.now)
  }

  /**
    What the surroundings guarantee: the kernel reports events and takes bytes
    only for an open socket, recv() returns at most what was asked for, and an
    IP packet carries less than 2^16 bytes.
  */
  predicate Enabled(c: Conn, e: Event)
    requires AllSound(c.t.forward)
  {
    match e
    case Arrive(p, _, sendOk, _) => |p.data| < 0x1_0000 && (sendOk ==> c.t.socket >= 0)
    case Ready(ev) =>
      && c.t.socket >= 0 && |ev.sends| >= |c.t.forward|
      && (ev.recv.Bytes? && !ev.err && IsOpen(BeforeRead(c, ev).t) ==>
            |ev.recv.data| <= ReadSize(BeforeRead(c, ev).t))
    case Watch(_, _, _, _) => c.t.socket >= 0
    case Tick(_, _, maxSessions, _) => maxSessions > 0
  }

  function Step(c: Conn, e: Event): Conn
    requires AllSound(c.t.forward) && Enabled(c, e)
  {
    match e
    case Arrive(p, now, sendOk, ok) => HandlePacket(c, p, now, sendOk, ok)
    case Ready(ev) => SocketStep(c, ev)
    case Watch(b, ms, ok, ctlOk) => Monitor(c, b, ms, ok, ctlOk)
    case Tick(now, sessions, maxSessions, ok) => CheckSession(c, now, sessions, maxSessions, ok).0
  }
}
