/**
  The TCP session as tcp.c runs it: fields updated in place, the queue scanned
  and spliced, loops over the queue. Every method is proved to take the step
  that TcpModel defines.
*/
module TcpSession {
  import opened Words
  import opened TcpQueue
  import opened TcpModel
  import TcpAccounting
  import TcpWindow

  class Session {
    var time: int
    const mss: u16
    const recvScale: nat
    const sendScale: nat
    var recvWindow: u32
    var sendWindow: u32
    var remoteSeq: u32
    var localSeq: u32
    const remoteStart: u32
    const localStart: u32
    var acked: u32
    var lastKeepAlive: int
    const dest: u16
    var state: State
    var forward: seq<Segment>
    var connectSent: Connect
    var socket: int
    var watchIn: bool
    var watchOut: bool
    const sub: Subtraction
    ghost var log: Log

    ghost function Record(): Tcb
      reads this
    {
      Tcb(time, mss, recvScale, sendScale, recvWindow, sendWindow, remoteSeq, localSeq, remoteStart, localStart,
          acked, lastKeepAlive, dest, state, forward, connectSent, socket, watchIn, watchOut, sub)
    }

    ghost function Snapshot(): Conn
      reads this
    {
      Conn(Record(), log)
    }

    /** The session a SYN registers (handle_tcp, no session found). */
    constructor (m: Subtraction, p: Packet, mss: u16, scale: nat, isn: u32, dest: u16, socket: int, now: int,
                 b: SendBuffer)
      requires |p.data| < 0x1_0000
      ensures Snapshot() == NewConn(m, p, mss, scale, isn, dest, socket, now, b)
    {
      this.sub, this.time := m, now;
      this.mss, this.recvScale, this.sendScale := mss, scale, scale;
      this.sendWindow := Mod32(p.window * Pow2(scale));
      this.remoteSeq, this.localSeq, this.remoteStart, this.localStart := p.seqno, isn, p.seqno, isn;
      this.acked, this.lastKeepAlive := 0, 0;
      this.connectSent := if dest == HTTP_PORT then Accepted else NotSent;
      this.dest := dest;
      this.state := Listen;
      this.forward := [];
      if |p.data| > 0 {
        this.forward := [Segment(p.seqno, |p.data|, 0, p.psh, p.data)];
      }
      this.socket := socket;
      this.recvWindow := 0;
      this.watchIn, this.watchOut := false, true;
      this.log := Log([], [], 0, 0, [], 0, 0, 0, 0, []);
      new;
      var window := ReceiveWindow(b);
      this.recvWindow := window;
    }

    // ---------- writing to the tun device ----------

    /** Record what reached the app. */
    ghost method Emit(data: seq<u8>, syn: bool, ack: bool, fin: bool, rst: bool, ok: bool)
      modifies this`log
      ensures Snapshot() == TcpModel.WriteTcp(old(Snapshot()), data, syn, ack, fin, rst, ok)
    {
      if ok {
        log := log.(tun := log.tun + [Build(Record(), data, syn, ack, fin, rst)]);
      }
    }

    /** write_syn_ack, write_ack, write_data and write_fin_ack. */
    method WriteOrClose(data: seq<u8>, syn: bool, fin: bool, ok: bool)
      modifies this`log, this`state
      ensures Snapshot() == TcpModel.WriteOrClose(old(Snapshot()), data, syn, fin, ok)
    {
      Emit(data, syn, true, fin, false, ok);
      if !ok {
        state := Closing;
      }
    }

    method WriteAck(ok: bool)
      modifies this`log, this`state
      ensures Snapshot() == TcpModel.WriteAck(old(Snapshot()), ok)
    {
      WriteOrClose([], false, false, ok);
    }

    method WriteRst(ok: bool)
      modifies this`log, this`state, this`remoteSeq
      ensures Snapshot() == TcpModel.WriteRst(old(Snapshot()), ok)
    {
      var ack := false;
      if state == Listen {
        ack := true;
        CountRemoteSyn();
      }
      Emit([], false, ack, false, true, ok);
      if state != Close {
        state := Closing;
      }
    }

    // ---------- windows ----------

    /** get_receive_window: the queue is summed in a 32-bit word. */
    method ReceiveWindow(b: SendBuffer) returns (w: u32)
      ensures w == GetReceiveWindow(Record(), b)
    {
      var toForward: u32 := 0;
      var i := 0;
      while i < |forward|
        invariant i <= |forward|
        invariant toForward == Mod32(Unsent(forward[..i]))
      {
        var unsent: int := forward[i].len - forward[i].sent;
        UnsentAppend(forward[..i], forward[i]);
        assert forward[..i] + [forward[i]] == forward[..i + 1];
        ModAdd(Unsent(forward[..i]), unsent);
        toForward := Mod32(toForward + unsent);
        i := i + 1;
      }
      assert forward[..i] == forward;
      var window: u32 := Mod32(GetReceiveBuffer(socket, b));
      var max: u32 := Mod32(0xFFFF * Pow2(recvScale));
      if window > max {
        window := max;
      }
      w := if toForward < window then window - toForward else 0;
      if Shr(w, recvScale) == 0 {
        w := 0;
      }
    }

    // ---------- packets from the app ----------

    /** The walk of queue_tcp along the list. */
    method FindPosition(seqno: u32) returns (i: nat)
      ensures i == Scan(sub, forward, seqno)
    {
      i := 0;
      while i < |forward| && CompareU32(sub, forward[i].seqno, seqno) < 0
        invariant i <= |forward|
        invariant Scan(sub, forward, seqno) == i + Scan(sub, forward[i..], seqno)
      {
        assert forward[i..][1..] == forward[i + 1..];
        i := i + 1;
      }
    }

    /** queue_tcp: walk to the insertion point, then splice or replace in place. */
    method QueueTcp(p: Packet)
      requires |p.data| < 0x1_0000
      modifies this`forward
      ensures Snapshot() == TcpModel.Queue(old(Snapshot()), p)
    {
      if CompareU32(sub, p.seqno, remoteSeq) < 0 {
        return;
      }
      var i := FindPosition(p.seqno);
      if i == |forward| || CompareU32(sub, forward[i].seqno, p.seqno) > 0 {
        forward := forward[..i] + [Segment(p.seqno, |p.data|, 0, p.psh, p.data)] + forward[i..];
      } else if forward[i].len < |p.data| {
        forward := forward[i := forward[i].(data := p.data)];
      }
    }

    method HandleCurrent(p: Packet, ok: bool)
      modifies this
      ensures Snapshot() == TcpModel.HandleCurrent(old(Snapshot()), p, ok)
    {
      if p.syn {
      } else if p.fin {
        if state == Established {
          if forward == [] {
            CountRemoteFin();
            WriteAck(ok);
            if ok {
              state := CloseWait;
            }
          } else {
            state := CloseWait;
          }
        } else if state == FinWait1 {
          CountRemoteFin();
          WriteAck(ok);
          if ok {
            state := Close;
          }
        }
      } else if p.ack {
        acked := p.ackno;
        if state == SynRecv {
          state := Established;
        } else if state == LastAck {
          state := Closing;
        }
      }
    }

    method CountRemoteSyn()
      modifies this`remoteSeq, this`log
      ensures Snapshot() == TcpModel.CountRemoteSyn(old(Snapshot()))
    {
      remoteSeq := Mod32(remoteSeq + 1);
      log := log.(remoteSyn := log.remoteSyn + 1);
    }

    method CountRemoteFin()
      modifies this`remoteSeq, this`log
      ensures Snapshot() == TcpModel.CountRemoteFin(old(Snapshot()))
    {
      remoteSeq := Mod32(remoteSeq + 1);
      log := log.(remoteFin := log.remoteFin + 1);
    }

    method HandleOtherAck(p: Packet, ok: bool)
      modifies this
      ensures Snapshot() == TcpModel.HandleOtherAck(old(Snapshot()), p, ok)
    {
      if Mod32(p.ackno + 1) == localSeq {
        // keep alive
      } else if CompareU32(sub, p.ackno, localSeq) < 0 {
        if CompareU32(sub, p.ackno, acked) > 0 {
          acked := p.ackno;
        }
      } else {
        WriteRst(ok);
      }
    }

    /** The port-443 prelude of handle_tcp. */
    method RequestConnect(sendOk: bool, ok: bool)
      modifies this
      ensures Snapshot() == TcpModel.RequestConnect(old(Snapshot()), sendOk, ok)
    {
      if dest == TLS_PORT && connectSent == NotSent {
        if sendOk {
          connectSent := Requested;
          state := Listen;
        } else {
          WriteRst(ok);
        }
      }
    }

    /** handle_tcp for a known session. */
    method HandleTcp(p: Packet, now: int, sendOk: bool, ok: bool)
      requires |p.data| < 0x1_0000
      modifies this
      ensures Snapshot() == HandlePacket(old(Snapshot()), p, now, sendOk, ok)
    {
      if p.urg {
        return;
      }
      RequestConnect(sendOk, ok);
      if dest == TLS_PORT && connectSent != Accepted {
        QueueTcp(p);
        return;
      }
      if state == Closing || state == Close {
        WriteRst(ok);
        return;
      }
      time := now;
      sendWindow := Mod32(p.window * Pow2(sendScale));
      HandleStamped(p, ok);
    }

    method HandleStamped(p: Packet, ok: bool)
      requires |p.data| < 0x1_0000
      modifies this
      ensures Snapshot() == HandleOpen(old(Snapshot()), p, ok)
    {
      if p.data != [] {
        if socket < 0 {
          WriteRst(ok);
          return;
        }
        if state == CloseWait {
          WriteRst(ok);
          return;
        }
        QueueTcp(p);
      }
      if p.rst {
        state := Closing;
      } else if !p.ack || p.ackno == localSeq {
        HandleCurrent(p, ok);
      } else {
        HandleOtherAck(p, ok);
      }
    }

    // ---------- socket events ----------

    /** One send call for the head segment; done says whether the segment left the queue. */
    method SendHead(s: SendStep) returns (sent: nat, done: bool)
      requires forward != [] && Sound(forward[0])
      modifies this`forward, this`remoteSeq, this`log
      ensures Snapshot() == SendOnce(old(Snapshot()), s)
      ensures sent == log.advanced - old(log.advanced)
      ensures done <==> |forward| < |old(forward)|
    {
      var h := forward[0];
      var rest: nat := h.len - h.sent;
      sent := rest;  // a failed send: -1 compares as larger than any length
      ghost var raw := [];
      if s.result.Taken? {
        var data := h.data[h.sent..h.len];
        if dest == HTTP_PORT && s.patched.Some? {
          data := s.patched.value;
        }
        var taken := Min(s.result.n, |data|);
        raw := data[..taken];
        sent := Min(taken, rest);
      }
      done := Advance(sent, raw, if s.result.Taken? then 0 else rest);
    }

    /** The bookkeeping after a send: count it and drop the head when it is done. */
    method Advance(n: nat, ghost raw: seq<u8>, ghost lost: nat) returns (done: bool)
      requires forward != [] && forward[0].sent + n <= forward[0].len
      modifies this`forward, this`remoteSeq, this`log
      ensures Snapshot() == TcpModel.SendHead(old(Snapshot()), n, raw, lost)
      ensures done <==> |forward| < |old(forward)|
    {
      var h := forward[0];
      remoteSeq := Mod32(h.seqno + (h.sent + n));
      done := h.len == h.sent + n;
      forward := if done then forward[1..] else [h.(sent := h.sent + n)] + forward[1..];
      log := log.(up := log.up + raw, advanced := log.advanced + n, lost := log.lost + lost);
    }

    /** The forward loop of check_tcp_socket; sends[k] answers the k-th send call. */
    method ForwardPending(buffer: nat, sends: seq<SendStep>) returns (fwd: bool)
      requires AllSound(forward) && |sends| >= |forward|
      modifies this`forward, this`remoteSeq, this`log
      ensures (Snapshot(), fwd) == Forward(old(Snapshot()), buffer, sends)
    {
      hide Forward, SendOnce, AllSound;
      fwd := false;
      var room: int := buffer;
      var k := 0;
      while forward != []
            && Mod32(forward[0].seqno + forward[0].sent) == remoteSeq
            && forward[0].len - forward[0].sent < room
        invariant k <= |sends| && AllSound(forward) && |sends[k..]| >= |forward|
        invariant Forward(old(Snapshot()), buffer, sends) ==
                  (Forward(Snapshot(), room, sends[k..]).0, fwd || Forward(Snapshot(), room, sends[k..]).1)
        decreases |forward|
      {
        assert sends[k..][0] == sends[k] && sends[k..][1..] == sends[k + 1..];
        TcpAccounting.ForwardUnfolds(Snapshot(), room, sends[k..]);
        var sent, done := SendHead(sends[k]);
        fwd := true;
        room := room - sent;
        if !done {
          return;
        }
        k := k + 1;
      }
      TcpAccounting.ForwardUnfolds(Snapshot(), room, sends[k..]);
    }

    /** After forwarding: publish the new receive window and acknowledge. */
    method Acknowledge(fwd: bool, after: SendBuffer, ok: bool, now: int)
      modifies this
      ensures Snapshot() == TcpModel.Acknowledge(old(Snapshot()), fwd, after, ok, now)
    {
      var window := ReceiveWindow(after);
      var prev := recvWindow;
      recvWindow := window;
      if fwd || (prev == 0 && window > 0) {
        if fwd && forward == [] && state == CloseWait {
          CountRemoteFin();
        }
        WriteAck(ok);
        if ok {
          time := now;
        }
      }
    }

    method CloseSocket()
      modifies this`socket, this`log
      ensures Snapshot() == TcpModel.CloseSocket(old(Snapshot()))
    {
      log := log.(closed := log.closed + [socket]);
      socket := -1;
    }

    method ReadEof(ok: bool)
      modifies this
      ensures Snapshot() == TcpModel.ReadEof(old(Snapshot()), ok)
    {
      if forward == [] {
        WriteOrClose([], false, true, ok);
        if ok {
          localSeq := Mod32(localSeq + 1);
          log := log.(localFin := log.localFin + 1);
        }
        if state == Established {
          state := FinWait1;
        } else if state == CloseWait {
          state := LastAck;
        }
      } else {
        WriteRst(ok);
      }
      CloseSocket();
    }

    method ReadData(data: seq<u8>, ok: bool)
      modifies this
      ensures Snapshot() == TcpModel.ReadData(old(Snapshot()), data, ok)
    {
      WriteOrClose(data, false, false, ok);
      if ok {
        localSeq := Mod32(localSeq + |data|);
        log := log.(down := log.down + data);
      }
    }

    method ReadSocket(readable: bool, recv: RecvResult, ok: bool, now: int)
      modifies this
      ensures Snapshot() == TcpModel.ReadSocket(old(Snapshot()), readable, recv, ok, now)
    {
      if state == Established || state == CloseWait {
        var window := SendWindow();
        if readable && window > 0 {
          time := now;
          match recv
          case Broken => WriteRst(ok);
          case WouldBlock =>
          case Eof => ReadEof(ok);
          case Bytes(data) =>
            if data == [] {
              ReadEof(ok);
            } else {
              ReadData(data, ok);
            }
        }
      }
    }

    /** get_send_window: for a live session, the room up to the right edge and nothing beyond it. */
    method SendWindow() returns (window: u32)
      ensures window == GetSendWindow(Record())
      ensures TcpWindow.WindowInv(Snapshot()) && TcpWindow.Live(state) ==>
                var room := TcpWindow.RightEdge(Snapshot()) - TcpAccounting.LocalPos(Snapshot());
                window == if room > 0 && Alike(sub, acked, localSeq) then room else 0
    {
      if TcpWindow.WindowInv(Snapshot()) && TcpWindow.Live(state) {
        TcpWindow.SendWindowMeaning(Snapshot());
      }
      var behind: u32 := if CompareU32(sub, acked, localSeq) <= 0 then Mod32(localSeq - acked) else acked;
      window := if behind < sendWindow then sendWindow - behind else 0;
    }

    /** The proxy answers CONNECT on a listening session. */
    method ReadReply(recv: RecvResult, ok: bool)
      modifies this
      ensures Snapshot() == ReadConnectReply(old(Snapshot()), recv, ok)
    {
      if recv.Broken? || recv.WouldBlock? {
        WriteRst(ok);
      } else if connectSent == Requested {
        var reply := [];
        if recv.Bytes? {
          reply := recv.data[..Min(|recv.data|, 12)];
        }
        if Accepts(reply) {
          connectSent := Accepted;
          state := SynRecv;
        } else {
          WriteRst(ok);
        }
      }
    }

    /** The upstream connection is up. */
    method FinishConnect(ok: bool, now: int)
      modifies this
      ensures Snapshot() == Connected(old(Snapshot()), ok, now)
    {
      CountRemoteSyn();
      WriteOrClose([], true, false, ok);
      if ok {
        time := now;
        localSeq := Mod32(localSeq + 1);
        log := log.(localSyn := log.localSyn + 1);
        state := SynRecv;
      }
    }

    /** check_tcp_socket. */
    method CheckTcpSocket(e: SocketEvent)
      requires AllSound(forward) && |e.sends| >= |forward|
      modifies this
      ensures Snapshot() == SocketStep(old(Snapshot()), e)
    {
      if e.err {
        time := e.now;
        WriteRst(e.rstOk);
      } else if state == Listen {
        if e.readable {
          ReadReply(e.recv, e.tunOk);
        } else {
          FinishConnect(e.tunOk, e.now);
        }
      } else {
        var fwd := false;
        if e.writable {
          fwd := ForwardPending(GetReceiveBuffer(socket, e.before), e.sends);
        }
        Acknowledge(fwd, e.after, e.ackOk, e.now);
        assert Snapshot() == BeforeRead(old(Snapshot()), e);
        ReadSocket(e.readable, e.recv, e.tunOk, e.now);
      }
    }

    // ---------- periodic work ----------

    method KeepAlive(ms: int, ok: bool)
      modifies this
      ensures Snapshot() == TcpModel.KeepAlive(old(Snapshot()), ms, ok)
    {
      if ms - lastKeepAlive > EPOLL_MIN_CHECK {
        lastKeepAlive := ms;
        remoteSeq := Mod32(remoteSeq - 1);
        WriteAck(ok);
        remoteSeq := Mod32(remoteSeq + 1);
      }
    }

    /** epoll_ctl, when the interests changed. */
    method Rearm(wantIn: bool, wantOut: bool, ctlOk: bool)
      modifies this`watchIn, this`watchOut, this`state
      ensures Snapshot() == TcpModel.Rearm(old(Snapshot()), wantIn, wantOut, ctlOk)
    {
      if wantIn != watchIn || wantOut != watchOut {
        watchIn, watchOut := wantIn, wantOut;
        if !ctlOk {
          state := Closing;
        }
      }
    }

    /** monitor_tcp_session. */
    method MonitorTcpSession(b: SendBuffer, ms: int, ok: bool, ctlOk: bool)
      modifies this
      ensures Snapshot() == Monitor(old(Snapshot()), b, ms, ok, ctlOk)
    {
      var wantIn, wantOut := false, false;
      if state == Listen {
        if connectSent == Requested && dest == TLS_PORT {
          wantIn := true;
        } else {
          wantOut := true;
        }
      } else if state == Established || state == CloseWait {
        var window := SendWindow();
        if forward != [] {
          var room := GetReceiveBuffer(socket, b);
          wantOut := Mod32(forward[0].seqno + forward[0].sent) == remoteSeq && forward[0].len - forward[0].sent < room;
        }
        if window > 0 {
          wantIn := true;
        } else {
          KeepAlive(ms, ok);
        }
      }
      Rearm(wantIn, wantOut, ctlOk);
    }

    /** check_tcp_session; the result asks for removal. */
    method CheckTcpSession(now: int, sessions: int, maxSessions: int, ok: bool) returns (del: bool)
      requires maxSessions > 0
      modifies this
      ensures (Snapshot(), del) == CheckSession(old(Snapshot()), now, sessions, maxSessions, ok)
    {
      var timeout := GetTcpTimeout(state, sessions, maxSessions);
      if state != Closing && state != Close && time + timeout < now {
        if state == Listen {
          state := Closing;
        } else {
          WriteRst(ok);
        }
      }
      assert Snapshot() == Expire(old(Snapshot()), now, timeout, ok);
      if state == Closing {
        if socket >= 0 {
          CloseSocket();
        }
        time := now;
        state := Close;
      }
      del := state == Close && time + TCP_KEEP_TIMEOUT < now;
    }
  }

  lemma {:induction false} UnsentAppend(q: seq<Segment>, s: Segment)
    ensures Unsent(q + [s]) == Unsent(q) + (s.len - s.sent)
  {
    if q == [] {
    } else {
      assert (q + [s])[1..] == q[1..] + [s];
      UnsentAppend(q[1..], s);
    }
  }
}
