/**
  Packets reach their session: what a packet, a socket event or a change of the
  rules does to the session table, told in keys and sessions. Over every run the
  table has at most one TCP and one UDP session for a key, so a packet with that
  key goes to it and to no other.
*/
module SessionPackets {
  import opened Words
  import opened TcpModel
  import opened TcpAccounting
  import opened TcpPackets
  import opened SessionTable
  import opened SessionFds

  // ---------- one packet ----------

  predicate IsTcp(s: Session, key: Key) {
    s.Tcp? && s.tcp.key == key
  }

  predicate IsUdp(s: Session, key: Key) {
    s.Udp? && s.udp.key == key
  }

  /** An ICMP session of the same hosts that has not stopped. */
  predicate IsIcmp(s: Session, key: Key) {
    && s.Icmp? && !s.icmp.stop
    && s.icmp.key.version == key.version && s.icmp.key.source == key.source
    && s.icmp.key.destination == key.destination
  }

  /** Only session i changed, and nothing was opened or closed. */
  predicate OnlyAt(t: Table, r: Table, i: nat, s: Session)
    requires i < |t.list|
  {
    && r.calls == t.calls && |r.list| == |t.list| && r.list[i] == s
    && forall j | 0 <= j < |t.list| && j != i :: r.list[j] == t.list[j]
  }

  /** A packet of a known connection goes to its session, whatever its state, and opens no descriptor. */
  lemma TcpPacketReachesSession(t: Table, key: Key, port: u16, p: Packet, now: int, fd: int, setup: Setup,
                                sendOk: bool, ok: bool, i: nat)
    requires TableInv(t) && |p.data| < 0x1_0000 && i < |t.list| && IsTcp(t.list[i], key)
    requires forall j | 0 <= j < i :: !IsTcp(t.list[j], key)
    requires sendOk ==> Socket(t.list[i]) >= 0
    ensures var r := TcpPacketStep(t, key, port, p, now, fd, setup, sendOk, ok);
            OnlyAt(t, r, i, Tcp(TcpSession(key, HandlePacket(t.list[i].tcp.conn, p, now, sendOk, ok))))
  {
    assert FindTcp(t.list, key) == i;
    assert SessionOk(t.list[i]);
    ArriveKeeps(t.list[i].tcp.conn, p, now, sendOk, ok);
    UrgentLeaves(t.list[i].tcp.conn, p, now, sendOk, ok);
    hide HandlePacket, TcpAccounting.Inv, TableInv;
    assert t.calls + [] == t.calls;
  }

  lemma UrgentLeaves(c: Conn, p: Packet, now: int, sendOk: bool, ok: bool)
    requires |p.data| < 0x1_0000
    ensures p.urg ==> HandlePacket(c, p, now, sendOk, ok) == c
  {}

  /** A packet of no known connection opens a session in front of the others if it is a SYN and a socket is there. */
  lemma TcpPacketOfNoSession(t: Table, key: Key, port: u16, p: Packet, now: int, fd: int, setup: Setup,
                             sendOk: bool, ok: bool)
    requires |p.data| < 0x1_0000 && forall s | s in t.list :: !IsTcp(s, key)
    ensures var r := TcpPacketStep(t, key, port, p, now, fd, setup, sendOk, ok);
            if p.syn && !p.urg && fd >= 0 then
              && r.calls == t.calls + [Opened(fd)] && |r.list| == |t.list| + 1 && r.list[1..] == t.list
              && IsTcp(r.list[0], key) && Socket(r.list[0]) == fd
              && var c := r.list[0].tcp.conn;
                 && c.t.state == Listen && c.t.remoteSeq == p.seqno && c.t.localSeq == setup.isn && c.t.dest == port
                 && c.t.sendScale == c.t.recvScale == setup.scale && c.t.mss == setup.mss && c.t.time == now
            else r == t
  {
    var i := FindTcp(t.list, key);
    assert forall j | 0 <= j < |t.list| :: t.list[j] in t.list;
    hide GetReceiveWindow, Pow2;
  }

  /** A datagram of a known session is sent, unless the session is no longer active. */
  lemma UdpPacketReachesSession(t: Table, key: Key, port: u16, now: int, fd: int, dhcp: bool, failed: bool, i: nat)
    requires i < |t.list| && IsUdp(t.list[i], key) && forall j | 0 <= j < i :: !IsUdp(t.list[j], key)
    ensures var r := UdpPacketStep(t, key, port, now, fd, dhcp, failed);
            var u := t.list[i].udp;
            OnlyAt(t, r, i, Udp(if u.state != Active || dhcp then u
                                else UdpSession(key, now, if failed then Finishing else Active, u.port, u.socket)))
  {
    assert FindUdp(t.list, key) == i;
    assert t.calls + Closes([]) == t.calls;
  }

  /** One of no known session opens one. */
  lemma UdpPacketOfNoSession(t: Table, key: Key, port: u16, now: int, fd: int, dhcp: bool, failed: bool)
    requires forall s | s in t.list :: !IsUdp(s, key)
    ensures var r := UdpPacketStep(t, key, port, now, fd, dhcp, failed);
            if fd >= 0 then
              && r.calls == t.calls + [Opened(fd)] && |r.list| == |t.list| + 1 && r.list[1..] == t.list
              && r.list[0] == Udp(UdpSession(key, now, if failed && !dhcp then Finishing else Active, port, fd))
            else r == t
  {
    var i := FindUdp(t.list, key);
    assert forall j | 0 <= j < |t.list| :: t.list[j] in t.list;
  }

  lemma IcmpPacketReachesSession(t: Table, key: Key, now: int, fd: int, failed: bool, i: nat)
    requires i < |t.list| && IsIcmp(t.list[i], key) && forall j | 0 <= j < i :: !IsIcmp(t.list[j], key)
    ensures var r := IcmpPacketStep(t, key, now, fd, failed);
            OnlyAt(t, r, i, Icmp(IcmpSession(t.list[i].icmp.key, now, failed, t.list[i].icmp.socket)))
  {
    assert FindIcmp(t.list, key) == i;
    assert t.calls + Closes([]) == t.calls;
  }

  lemma IcmpPacketOfNoSession(t: Table, key: Key, now: int, fd: int, failed: bool)
    requires forall s | s in t.list :: !IsIcmp(s, key)
    ensures var r := IcmpPacketStep(t, key, now, fd, failed);
            if fd >= 0 then
              && r.calls == t.calls + [Opened(fd)] && |r.list| == |t.list| + 1 && r.list[1..] == t.list
              && r.list[0] == Icmp(IcmpSession(key, now, failed, fd))
            else r == t
  {
    var i := FindIcmp(t.list, key);
    assert forall j | 0 <= j < |t.list| :: t.list[j] in t.list;
  }

  // ---------- answers from upstream ----------

  /**
    An answer that reaches the app keeps a UDP session going, but one query is all
    a DNS session is for; an error, or the end, finishes it; nothing read leaves it.
  */
  lemma UdpAnswer(u: UdpSession, now: int, err: bool, read: Read)
    ensures var r := ReadUdp(u, now, err, read);
            && r.key == u.key && r.port == u.port && r.socket == u.socket
            && (r.time == if !err && read.Idle? then u.time else now)
            && (if !err && (read.Idle? || read.Retry? || (read.Relayed? && read.ok && u.port != 53))
                then r.state == u.state else r.state == Finishing)
  {
  }

  /** So does one that reaches an ICMP session, until something fails. */
  lemma IcmpAnswer(i: IcmpSession, now: int, err: bool, read: Read)
    ensures var r := ReadIcmp(i, now, err, read);
            && r.key == i.key && r.socket == i.socket
            && (r.time == if !err && read.Idle? then i.time else now)
            && (r.stop <==> i.stop || err || read.Fatal? || read.Ended? || (read.Relayed? && !read.ok))
  {
  }

  /** When the rules change every session is brought to an end; blocked UDP sessions are forgotten. */
  lemma RulesEndSessions(s: Session, ok: bool)
    ensures var r := AllowOne(s, ok);
            && r.closed == [] && Socket(r.session) == Socket(s)
            && (r.del <==> s.Udp? && s.udp.state == Blocked)
            && !IsLive(r.session)
            && (s.Tcp? && IsLive(s) ==>
                  && r.session.Tcp? && r.session.tcp.key == s.tcp.key && r.session.tcp.conn.t.state == Closing
                  && Told(s.tcp.conn, r.session.tcp.conn, ResetPacket(s.tcp.conn), ok))
            && (s.Udp? && s.udp.state == Active ==> r.session == Udp(s.udp.(state := Finishing)))
            && (!IsLive(s) ==> r.session == s)
  {
    hide Mod32, Shr;
  }

  // ---------- one session for a key, over every run ----------

  /** The same protocol and key. */
  predicate SameKey(a: Session, b: Session) {
    match a
    case Tcp(t) => b.Tcp? && b.tcp.key == t.key
    case Udp(u) => b.Udp? && b.udp.key == u.key
    case Icmp(_) => b.Icmp?
  }

  ghost predicate KeysDistinct(list: seq<Session>) {
    forall i, j | 0 <= i < j < |list| && !list[i].Icmp? :: !SameKey(list[i], list[j])
  }

  lemma ReplaceKeepsKeys(list: seq<Session>, i: nat, s: Session)
    requires i < |list| && KeysDistinct(list) && SameKey(list[i], s)
    ensures KeysDistinct(list[i := s])
  {
  }

  lemma PrependKeepsKeys(list: seq<Session>, s: Session)
    requires KeysDistinct(list) && (s.Icmp? || forall x | x in list :: !SameKey(s, x))
    ensures KeysDistinct([s] + list)
  {
    var r := [s] + list;
    forall i, j | 0 <= i < j < |r| && !r[i].Icmp?
      ensures !SameKey(r[i], r[j])
    {
      assert r[j] == list[j - 1] && list[j - 1] in list;
    }
  }

  /** What survives a pass under its key is still one of a kind. */
  lemma SurvivorsKeepKeys(list: seq<Session>, outs: seq<Outcome>)
    requires KeysDistinct(list) && |outs| == |list|
    requires forall i | 0 <= i < |list| :: SameKey(list[i], outs[i].session)
    ensures KeysDistinct(Survivors(outs))
  {
    hide SameKey;
    assert outs[0..] == outs;
    SurvivorsAreKept(outs, 0);
    var k, r := Kept(outs, 0), Survivors(outs);
    forall i, j | 0 <= i < j < |r| && !r[i].Icmp?
      ensures !SameKey(r[i], r[j])
    {
      assert k[i] < k[j];
      KeysCarry(list[k[i]], list[k[j]], r[i], r[j]);
    }
  }

  lemma KeysCarry(a: Session, b: Session, c: Session, d: Session)
    requires SameKey(a, c) && SameKey(b, d) && (!a.Icmp? ==> !SameKey(a, b)) && !c.Icmp?
    ensures !SameKey(c, d)
  {}

  lemma ChecksKeepKeys(list: seq<Session>, now: int, sessions: int, maxSessions: int, oks: seq<bool>)
    requires KeysDistinct(list) && maxSessions > 0 && |oks| == |list|
    ensures KeysDistinct(CheckPass(list, now, sessions, maxSessions, oks).list)
  {
    var outs := Outcomes(list, now, sessions, maxSessions, oks);
    forall i | 0 <= i < |list|
      ensures SameKey(list[i], outs[i].session)
    {
      hide CheckSession, Scaled;
    }
    SurvivorsKeepKeys(list, outs);
  }

  lemma RulesKeepKeys(list: seq<Session>, oks: seq<bool>)
    requires KeysDistinct(list) && |oks| == |list|
    ensures KeysDistinct(Survivors(AllowAll(list, oks)))
  {
    var outs := AllowAll(list, oks);
    forall i | 0 <= i < |list|
      ensures SameKey(list[i], outs[i].session)
    {
      hide WriteRst;
    }
    SurvivorsKeepKeys(list, outs);
  }

  lemma StepKeepsKeys(t: Table, e: TableEvent)
    requires KeysDistinct(t.list) && Possible(t, e)
    ensures KeysDistinct(TableStep(t, e).list)
  {
    hide HandlePacket, Step, CheckPass, NewCloses, Closes, KeysDistinct, NewConn;
    match e
    case TcpPacket(key, port, p, now, fd, setup, sendOk, ok) =>
      var i := FindTcp(t.list, key);
      if i < |t.list| {
        ReplaceKeepsKeys(t.list, i, Tcp(t.list[i].tcp.(conn := HandlePacket(t.list[i].tcp.conn, p, now, sendOk, ok))));
      } else {
        PrependKeepsKeys(t.list, NewTcp(key, port, p, now, fd, setup));
      }
    case TcpEvent(i, ev) => ReplaceKeepsKeys(t.list, i, Tcp(t.list[i].tcp.(conn := Step(t.list[i].tcp.conn, ev))));
    case UdpPacket(key, port, now, fd, dhcp, failed) =>
      var i := FindUdp(t.list, key);
      if i < |t.list| {
        ReplaceKeepsKeys(t.list, i, Udp(SendUdp(t.list[i].udp, now, dhcp, failed)));
      } else {
        PrependKeepsKeys(t.list, Udp(SendUdp(UdpSession(key, now, Active, port, fd), now, dhcp, failed)));
      }
    case UdpReady(i, now, err, read) => ReplaceKeepsKeys(t.list, i, Udp(ReadUdp(t.list[i].udp, now, err, read)));
    case IcmpPacket(key, now, fd, failed) =>
      var i := FindIcmp(t.list, key);
      if i < |t.list| {
        ReplaceKeepsKeys(t.list, i, Icmp(t.list[i].icmp.(time := now, stop := failed)));
      } else {
        PrependKeepsKeys(t.list, Icmp(IcmpSession(key, now, failed, fd)));
      }
    case IcmpReady(i, now, err, read) => ReplaceKeepsKeys(t.list, i, Icmp(ReadIcmp(t.list[i].icmp, now, err, read)));
    case CheckAll(now, sessions, maxSessions, oks) => ChecksKeepKeys(t.list, now, sessions, maxSessions, oks);
    case CheckAllowed(oks) => RulesKeepKeys(t.list, oks);
    case Clear => NoKeys();
  }

  lemma NoKeys()
    ensures KeysDistinct([])
  {}

  lemma {:induction false} RunKeepsKeys(t: Table, es: seq<TableEvent>)
    requires KeysDistinct(t.list) && TableRun(t, es)
    ensures KeysDistinct(AfterRun(t, es).list)
    decreases |es|
  {
    if es == [] {
    } else {
      StepKeepsKeys(t, es[0]);
      hide TableStep, Possible, KeysDistinct;
      RunKeepsKeys(TableStep(t, es[0]), es[1..]);
    }
  }

  /**
    Over every run from the empty table: a packet with the key of a TCP session in
    the list is handled by that session, wherever it stands and whatever its state,
    and by no other.
  */
  lemma PacketsReachTheirSession(es: seq<TableEvent>, key: Key, port: u16, p: Packet, now: int, fd: int, setup: Setup,
                                 sendOk: bool, ok: bool, i: nat)
    requires TableRun(Table([], []), es)
    requires var t := AfterRun(Table([], []), es);
             i < |t.list| && IsTcp(t.list[i], key) && |p.data| < 0x1_0000 && (sendOk ==> Socket(t.list[i]) >= 0)
    ensures var t := AfterRun(Table([], []), es);
            var r := TcpPacketStep(t, key, port, p, now, fd, setup, sendOk, ok);
            OnlyAt(t, r, i, Tcp(TcpSession(key, HandlePacket(t.list[i].tcp.conn, p, now, sendOk, ok))))
  {
    var t := AfterRun(Table([], []), es);
    NoKeys();
    RunKeepsKeys(Table([], []), es);
    assert OpenFds([]) == {};
    RunKeepsTable(Table([], []), es);
    forall j | 0 <= j < i
      ensures !IsTcp(t.list[j], key)
    {
      assert !t.list[j].Icmp? ==> !SameKey(t.list[j], t.list[i]);
    }
    hide AfterRun, TableRun, TableInv, KeysDistinct, HandlePacket;
    TcpPacketReachesSession(t, key, port, p, now, fd, setup, sendOk, ok, i);
  }
}
