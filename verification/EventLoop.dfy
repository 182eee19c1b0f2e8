/**
  The loops of session.c over the session list: counting, checking with
  deletion while iterating, terminating, clearing, and the searches of the
  packet handlers. Each is proved against the functions of SessionTable and
  SessionFds.
*/
module EventLoop {
  import opened Words
  import opened TcpModel
  import opened SessionTable
  import opened SessionFds

  function LiveCount(list: seq<Session>): nat {
    if list == [] then 0 else (if IsLive(list[0]) then 1 else 0) + LiveCount(list[1..])
  }

  lemma {:induction false} LiveCountAppend(a: seq<Session>, s: Session)
    ensures LiveCount(a + [s]) == LiveCount(a) + (if IsLive(s) then 1 else 0)
  {
    if a == [] {
    } else {
      assert (a + [s])[1..] == a[1..] + [s];
      LiveCountAppend(a[1..], s);
    }
  }

  /** In a pass over `start` the list has been worked off up to position i, after k checks. */
  ghost predicate Passed(list: seq<Session>, i: nat, outs: seq<Outcome>, k: nat, start: seq<Session>) {
    && i <= |list| && k <= |outs| == |start| && |list| - i == |outs| - k
    && list[i..] == start[k..] && list[..i] + Survivors(outs[k..]) == Survivors(outs)
  }

  lemma PassStarts(outs: seq<Outcome>, start: seq<Session>)
    requires |outs| == |start|
    ensures Passed(start, 0, outs, 0, start)
  {
    assert start[0..] == start && outs[0..] == outs && start[..0] + Survivors(outs) == Survivors(outs);
  }

  lemma PassEnds(list: seq<Session>, i: nat, outs: seq<Outcome>, k: nat, start: seq<Session>)
    requires Passed(list, i, outs, k, start) && i == |list|
    ensures k == |outs| && list == Survivors(outs)
  {
    assert list[..i] == list && outs[k..] == [];
  }

  lemma PassLooksAt(list: seq<Session>, i: nat, outs: seq<Outcome>, k: nat, start: seq<Session>)
    requires Passed(list, i, outs, k, start) && i < |list|
    ensures k < |start| && list[i] == start[k]
  {
    assert list[i] == list[i..][0] && start[k] == start[k..][0];
  }

  lemma TailStep<T>(s: seq<T>, k: nat)
    requires k < |s|
    ensures s[k..] != [] && s[k..][0] == s[k] && s[k..][1..] == s[k + 1..]
  {}

  /** A checked session is unlinked. */
  lemma PassUnlinks(list: seq<Session>, i: nat, outs: seq<Outcome>, k: nat, start: seq<Session>)
    requires Passed(list, i, outs, k, start) && i < |list| && outs[k].del
    ensures Passed(list[..i] + list[i + 1..], i, outs, k + 1, start)
  {
    TailStep(list, i);
    TailStep(start, k);
    TailStep(outs, k);
    PassStepSurvivors(list[..i], outs[k..]);
    var r := list[..i] + list[i + 1..];
    assert r[..i] == list[..i] && r[i..] == list[i + 1..];
  }

  /** A checked session stays, as checked. */
  lemma PassReplaces(list: seq<Session>, i: nat, outs: seq<Outcome>, k: nat, start: seq<Session>)
    requires Passed(list, i, outs, k, start) && i < |list| && !outs[k].del
    ensures Passed(list[i := outs[k].session], i + 1, outs, k + 1, start)
  {
    TailStep(list, i);
    TailStep(start, k);
    TailStep(outs, k);
    PassStepSurvivors(list[..i], outs[k..]);
    var r := list[i := outs[k].session];
    assert r[..i + 1] == list[..i] + [outs[k].session] && r[i + 1..] == list[i + 1..];
  }

  lemma WaitStep(outs: seq<Outcome>, wait: int, now: int, load: int, maxSessions: int)
    requires maxSessions > 0 && outs != []
    ensures Wait(outs, wait, now, load, maxSessions)
         == Wait(outs[1..], if outs[0].del then wait else Tighten(wait, outs[0].session, now, load, maxSessions),
                 now, load, maxSessions)
  {}

  lemma WaitEnds(now: int, load: int, maxSessions: int)
    requires maxSessions > 0
    ensures forall wait :: Wait([], wait, now, load, maxSessions) == wait
  {}

  /**
    The session's part in the choice of the poll wait: it is cut short only for a
    live session, exactly to the moment that session becomes expirable, and never
    runs past the deadline of a live session that is in time.
  */
  method TightenWait(timeout: int, s: Session, now: int, load: int, maxSessions: int) returns (r: int)
    requires maxSessions > 0
    ensures r == Tighten(timeout, s, now, load, maxSessions)
    ensures r <= timeout && (timeout > 0 ==> r > 0)
    ensures r != timeout ==> IsLive(s) && Expirable(s, now + r, load, maxSessions)
    ensures IsLive(s) && !Expirable(s, now, load, maxSessions) ==> !Expirable(s, now + r - 1, load, maxSessions)
  {
    r := timeout;
    if IsLive(s) {
      var stimeout := Deadline(s, load, maxSessions) - now + 1;
      if stimeout > 0 && stimeout < timeout {
        r := stimeout;
      }
    }
  }

  /** What monitor_tcp_session is told: the socket buffer, the clock, the tun write and epoll_ctl. */
  datatype Watching = Watching(buffer: SendBuffer, ms: int, ok: bool, ctlOk: bool)

  /** A session after its turn in the first loop: only TCP sessions with a socket choose events. */
  function WatchOne(s: Session, a: Watching): Session {
    match s
    case Tcp(t) =>
      if t.conn.t.socket >= 0 then Tcp(t.(conn := Monitor(t.conn, a.buffer, a.ms, a.ok, a.ctlOk))) else s
    case _ => s
  }

  function Watched(list: seq<Session>, answers: seq<Watching>): (r: seq<Session>)
    requires |answers| == |list|
    ensures |r| == |list| && forall i | 0 <= i < |r| :: r[i] == WatchOne(list[i], answers[i])
  {
    seq(|list|, i requires 0 <= i < |list| => WatchOne(list[i], answers[i]))
  }

  /** An open session with a shut window, or with data it cannot forward now, is looked at again soon. */
  predicate Rechecks(s: Session, a: Watching) {
    && s.Tcp? && s.tcp.conn.t.socket >= 0
    && var t := s.tcp.conn.t;
       IsOpen(t) && (GetSendWindow(t) == 0
                     || (t.forward != [] && !CanForward(t, GetReceiveBuffer(t.socket, a.buffer))))
  }

  /** Every TCP session with a socket chooses what to wait for; the others keep as they are. */
  lemma WatchedEvents(list: seq<Session>, answers: seq<Watching>, i: nat)
    requires |answers| == |list| && i < |list|
    ensures var r := Watched(list, answers)[i];
            if list[i].Tcp? && list[i].tcp.conn.t.socket >= 0 then
              && r.Tcp? && r.tcp.key == list[i].tcp.key
              && var t, n := list[i].tcp.conn.t, r.tcp.conn.t;
                 && n.watchIn == ((t.state == Listen && t.connectSent == Requested && t.dest == 443)
                                  || (IsOpen(t) && GetSendWindow(t) > 0))
                 && n.watchOut == ((t.state == Listen && !(t.connectSent == Requested && t.dest == 443))
                                   || (IsOpen(t) && CanForward(t, GetReceiveBuffer(t.socket, answers[i].buffer))))
            else r == list[i] && !Rechecks(list[i], answers[i])
  {
    hide GetSendWindow, GetReceiveBuffer, CanForward;
  }

  /**
    An open session is looked at again soon exactly if it may not be read now, or
    has something queued that would not go out at the next writable event.
  */
  lemma NoRecheckNoStall(list: seq<Session>, answers: seq<Watching>, i: nat)
    requires |answers| == |list| && i < |list|
    requires list[i].Tcp? && list[i].tcp.conn.t.socket >= 0 && IsOpen(list[i].tcp.conn.t)
    ensures var t := Watched(list, answers)[i].tcp.conn.t;
            && (!Rechecks(list[i], answers[i]) <==> t.watchIn && (t.forward != [] <==> t.watchOut))
            && (t.watchIn <==> GetSendWindow(list[i].tcp.conn.t) > 0)
  {
    hide GetSendWindow, GetReceiveBuffer;
  }

  class Loop {
    var sessions: seq<Session>
    ghost var calls: seq<Call>

    ghost function State(): Table
      reads this
    {
      Table(sessions, calls)
    }

    /** init(). */
    constructor ()
      ensures State() == Table([], [])
    {
      sessions := [];
      calls := [];
    }

    /**
      The first loop of handle_events: count the load that scales the timeouts, and
      let every TCP session with a socket choose its events. answers[i] is what the
      kernel and the clock say to session i.
    */
    method CountSessions(answers: seq<Watching>) returns (n: nat, recheck: bool)
      requires |answers| == |sessions|
      modifies this`sessions
      ensures n == LiveCount(old(sessions)) && sessions == Watched(old(sessions), answers)
      ensures recheck <==> exists i | 0 <= i < |answers| :: Rechecks(old(sessions)[i], answers[i])
    {
      var icmp, udp, tcp := 0, 0, 0;
      recheck := false;
      var i := 0;
      while i < |sessions|
        invariant i <= |sessions| == |answers|
        invariant 0 <= icmp && 0 <= udp && 0 <= tcp && icmp + udp + tcp == LiveCount(old(sessions)[..i])
        invariant forall j | 0 <= j < i :: sessions[j] == WatchOne(old(sessions)[j], answers[j])
        invariant forall j | i <= j < |sessions| :: sessions[j] == old(sessions)[j]
        invariant recheck <==> exists j | 0 <= j < i :: Rechecks(old(sessions)[j], answers[j])
      {
        LiveCountAppend(old(sessions)[..i], sessions[i]);
        assert old(sessions)[..i] + [sessions[i]] == old(sessions)[..i + 1];
        match sessions[i] {
          case Icmp(s) => if !s.stop { icmp := icmp + 1; }
          case Udp(s) => if s.state == Active { udp := udp + 1; }
          case Tcp(s) =>
            if s.conn.t.state != Closing && s.conn.t.state != Close {
              tcp := tcp + 1;
            }
            if s.conn.t.socket >= 0 {
              recheck := recheck || Rechecks(sessions[i], answers[i]);
              sessions := sessions[i := WatchOne(sessions[i], answers[i])];
            }
        }
        i := i + 1;
      }
      assert old(sessions)[..i] == old(sessions);
      n := icmp + udp + tcp;
    }

    /** close(). */
    ghost method CloseAll(fds: seq<int>)
      modifies this`calls
      ensures calls == old(calls) + Closes(fds)
    {
      calls := calls + Closes(fds);
    }

    /**
      The check loop of handle_events: sessions are checked in order and
      unlinked while iterating; i is the position of `s`, k counts the checks.
    */
    method CheckSessions(now: int, load: int, maxSessions: int, oks: seq<bool>) returns (timeout: int)
      requires maxSessions > 0 && |oks| == |sessions|
      modifies this
      ensures var p := CheckPass(old(sessions), now, load, maxSessions, oks);
              sessions == p.list && timeout == p.wait && calls == old(calls) + Closes(p.closed)
    {
      assert Closes(AllCloses([])) == [];
      WaitEnds(now, load, maxSessions);
      hide CheckOne, Tighten, Wait, Survivors, AllCloses, Closes, Passed;
      timeout := EPOLL_TIMEOUT;
      ghost var start, outs := sessions, Outcomes(sessions, now, load, maxSessions, oks);
      var i, k := 0, 0;
      PassStarts(outs, start);
      assert outs[0..] == outs;
      while i < |sessions|
        invariant Passed(sessions, i, outs, k, start) && k <= |outs| && |sessions| - i == |outs| - k
        invariant Wait(outs[k..], timeout, now, load, maxSessions) == Wait(outs, EPOLL_TIMEOUT, now, load, maxSessions)
        invariant calls + Closes(AllCloses(outs[k..])) == old(calls) + Closes(AllCloses(outs))
        decreases |outs| - k
      {
        PassLooksAt(sessions, i, outs, k, start);
        TailStep(outs, k);
        WaitStep(outs[k..], timeout, now, load, maxSessions);
        var o := CheckOne(sessions[i], now, load, maxSessions, oks[k]);
        PassStepCalls(outs[k..], calls);
        CloseAll(o.closed);
        if o.del {
          PassUnlinks(sessions, i, outs, k, start);
          sessions := sessions[..i] + sessions[i + 1..];
        } else {
          timeout := TightenWait(timeout, o.session, now, load, maxSessions);
          PassReplaces(sessions, i, outs, k, start);
          sessions := sessions[i := o.session];
          i := i + 1;
        }
        k := k + 1;
      }
      PassEnds(sessions, i, outs, k, start);
      assert outs[k..] == [];
    }

    /** check_allowed: terminate every session, unlink the blocked ones. */
    method TerminateAll(oks: seq<bool>)
      requires |oks| == |sessions|
      modifies this`sessions
      ensures sessions == Survivors(AllowAll(old(sessions), oks))
    {
      hide WriteRst, IsLive, Survivors, Passed;
      ghost var start, outs := sessions, AllowAll(sessions, oks);
      var i, k := 0, 0;
      PassStarts(outs, start);
      while i < |sessions|
        invariant Passed(sessions, i, outs, k, start) && k <= |outs| && |sessions| - i == |outs| - k
        decreases |outs| - k
      {
        PassLooksAt(sessions, i, outs, k, start);
        if sessions[i].Udp? && sessions[i].udp.state == Blocked {
          PassUnlinks(sessions, i, outs, k, start);
          sessions := sessions[..i] + sessions[i + 1..];
        } else {
          PassReplaces(sessions, i, outs, k, start);
          sessions := sessions[i := AllowOne(sessions[i], oks[k]).session];
          i := i + 1;
        }
        k := k + 1;
      }
      PassEnds(sessions, i, outs, k, start);
    }

    /** clear(): close what is open and forget everything. */
    method Clear()
      modifies this
      ensures State() == Table([], old(calls) + Closes(OpenSockets(old(sessions))))
    {
      var i := 0;
      assert sessions[0..] == sessions;
      while i < |sessions|
        invariant i <= |sessions| && sessions == old(sessions)
        invariant calls + Closes(OpenSockets(sessions[i..])) == old(calls) + Closes(OpenSockets(sessions))
      {
        assert sessions[i..][0] == sessions[i] && sessions[i..][1..] == sessions[i + 1..];
        var fd := Socket(sessions[i]);
        if fd >= 0 {
          ClosesConcat([fd], OpenSockets(sessions[i + 1..]));
          assert calls + Closes([fd] + OpenSockets(sessions[i + 1..]))
              == (calls + Closes([fd])) + Closes(OpenSockets(sessions[i + 1..]));
          CloseAll([fd]);
        } else {
          assert [] + OpenSockets(sessions[i + 1..]) == OpenSockets(sessions[i + 1..]);
        }
        i := i + 1;
      }
      assert calls + [] == calls;
      sessions := [];
    }

    /** The session search of handle_tcp. */
    method SearchTcp(key: Key) returns (i: nat)
      ensures i == FindTcp(sessions, key)
    {
      i := 0;
      assert sessions[0..] == sessions;
      while i < |sessions| && !(sessions[i].Tcp? && sessions[i].tcp.key == key)
        invariant i <= |sessions| && FindTcp(sessions, key) == i + FindTcp(sessions[i..], key)
      {
        assert sessions[i..][1..] == sessions[i + 1..];
        i := i + 1;
      }
    }

    /** The session search of handle_udp. */
    method SearchUdp(key: Key) returns (i: nat)
      ensures i == FindUdp(sessions, key)
    {
      i := 0;
      assert sessions[0..] == sessions;
      while i < |sessions| && !(sessions[i].Udp? && sessions[i].udp.key == key)
        invariant i <= |sessions| && FindUdp(sessions, key) == i + FindUdp(sessions[i..], key)
      {
        assert sessions[i..][1..] == sessions[i + 1..];
        i := i + 1;
      }
    }

    /** The session search of handle_icmp. */
    method SearchIcmp(key: Key) returns (i: nat)
      ensures i == FindIcmp(sessions, key)
    {
      i := 0;
      assert sessions[0..] == sessions;
      while i < |sessions| && !(sessions[i].Icmp? && !sessions[i].icmp.stop && SameHosts(sessions[i].icmp.key, key))
        invariant i <= |sessions| && FindIcmp(sessions, key) == i + FindIcmp(sessions[i..], key)
      {
        assert sessions[i..][1..] == sessions[i + 1..];
        i := i + 1;
      }
    }

    /** A new session goes to the front of the list. */
    method Register(s: Session)
      modifies this
      ensures State() == Prepend(old(State()), s)
    {
      sessions := [s] + sessions;
      calls := calls + [Opened(Socket(s))];
    }

    /** handle_tcp; fd is what open_tcp_socket would return. */
    method HandleTcp(key: Key, port: u16, p: Packet, now: int, fd: int, setup: Setup, sendOk: bool, ok: bool)
      requires |p.data| < 0x1_0000
      modifies this
      ensures State() == TcpPacketStep(old(State()), key, port, p, now, fd, setup, sendOk, ok)
    {
      var i := SearchTcp(key);
      if p.urg {
        return;
      }
      if i < |sessions| {
        var c := sessions[i].tcp.conn;
        var d := HandlePacket(c, p, now, sendOk, ok);
        sessions := sessions[i := Tcp(sessions[i].tcp.(conn := d))];
        CloseAll(NewCloses(c, d));
      } else if p.syn && fd >= 0 {
        Register(NewTcp(key, port, p, now, fd, setup));
      }
    }

    /** handle_udp; fd is what open_udp_socket would return. */
    method HandleUdp(key: Key, port: u16, now: int, fd: int, dhcp: bool, failed: bool)
      modifies this
      ensures State() == UdpPacketStep(old(State()), key, port, now, fd, dhcp, failed)
    {
      var i := SearchUdp(key);
      if i < |sessions| {
        if sessions[i].udp.state != Active {
          return;
        }
        sessions := sessions[i := Udp(SendUdp(sessions[i].udp, now, dhcp, failed))];
        CloseAll([]);
      } else if fd >= 0 {
        Register(Udp(SendUdp(UdpSession(key, now, Active, port, fd), now, dhcp, failed)));
      }
    }

    /** handle_icmp; fd is what open_icmp_socket would return. */
    method HandleIcmp(key: Key, now: int, fd: int, failed: bool)
      modifies this
      ensures State() == IcmpPacketStep(old(State()), key, now, fd, failed)
    {
      var i := SearchIcmp(key);
      if i < |sessions| {
        sessions := sessions[i := Icmp(sessions[i].icmp.(time := now, stop := failed))];
        CloseAll([]);
      } else if fd >= 0 {
        Register(Icmp(IcmpSession(key, now, failed, fd)));
      }
    }
  }
}
