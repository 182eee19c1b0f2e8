/**
  File descriptors over whole runs of the session table: every step that opens,
  closes, adds or unlinks, and the proof that each descriptor is closed exactly once.
*/
module SessionFds {
  import opened Words
  import opened TcpModel
  import opened TcpAccounting
  import opened SessionTable

  /** What the table asks of the kernel. */
  datatype Call = Opened(fd: int) | CloseCall(fd: int)

  /** The session list and all calls so far. */
  datatype Table = Table(list: seq<Session>, calls: seq<Call>)

  function Apply(open: set<int>, c: Call): set<int> {
    if c.Opened? then open + {c.fd} else open - {c.fd}
  }

  /** The kernel hands out only closed descriptors; the program may close only open ones. */
  predicate Allowed(open: set<int>, c: Call) {
    if c.Opened? then c.fd >= 0 && c.fd !in open else c.fd in open
  }

  /** The descriptors open after the calls. */
  function OpenFds(calls: seq<Call>): set<int> {
    if calls == [] then {} else Apply(OpenFds(calls[..|calls| - 1]), calls[|calls| - 1])
  }

  /** Every close is of an open descriptor, every open of a closed one. */
  predicate Lawful(calls: seq<Call>) {
    calls == []
    || (Lawful(calls[..|calls| - 1]) && Allowed(OpenFds(calls[..|calls| - 1]), calls[|calls| - 1]))
  }

  function Times(calls: seq<Call>, c: Call): nat {
    if calls == [] then 0 else Times(calls[..|calls| - 1], c) + (if calls[|calls| - 1] == c then 1 else 0)
  }

  /**
    In a lawful history a descriptor was closed once for each time it was opened,
    not counting one that is open now.
  */
  lemma {:induction false} ClosedOncePerOpen(calls: seq<Call>, fd: int)
    requires Lawful(calls)
    ensures Times(calls, Opened(fd)) == Times(calls, CloseCall(fd)) + (if fd in OpenFds(calls) then 1 else 0)
  {
    if calls == [] {
    } else {
      ClosedOncePerOpen(calls[..|calls| - 1], fd);
    }
  }

  // ---------- the invariant ----------

  /** A session's own states and its socket agree. */
  ghost predicate SessionOk(s: Session) {
    match s
    case Icmp(i) => i.socket >= 0
    case Udp(u) => if u.state == Active || u.state == Finishing then u.socket >= 0 else u.socket == -1
    case Tcp(t) => TcpAccounting.Inv(t.conn)
  }

  /** No two sessions share a descriptor. */
  ghost predicate DistinctSockets(list: seq<Session>) {
    forall i, j | 0 <= i < j < |list| && Socket(list[i]) >= 0 :: Socket(list[i]) != Socket(list[j])
  }

  /** The open descriptors are exactly the non-negative sockets of the list. */
  ghost predicate OwnsAll(list: seq<Session>, open: set<int>) {
    && (forall s | s in list && Socket(s) >= 0 :: Socket(s) in open)
    && (forall fd | fd in open :: fd >= 0 && exists s :: s in list && Socket(s) == fd)
  }

  ghost predicate TableInv(t: Table) {
    && Lawful(t.calls)
    && (forall s | s in t.list :: SessionOk(s))
    && DistinctSockets(t.list)
    && OwnsAll(t.list, OpenFds(t.calls))
  }

  // ---------- three ways the table changes ----------

  function Closes(fds: seq<int>): seq<Call> {
    if fds == [] then [] else [CloseCall(fds[0])] + Closes(fds[1..])
  }

  /** A session keeps its socket and closes nothing, or closes just that socket. */
  predicate OwnClose(s: Session, n: Session, closed: seq<int>) {
    || (Socket(n) == Socket(s) && closed == [])
    || (Socket(s) >= 0 && Socket(n) == -1 && closed == [Socket(s)])
  }

  function Replace(t: Table, i: nat, n: Session, closed: seq<int>): Table
    requires i < |t.list|
  {
    Table(t.list[i := n], t.calls + Closes(closed))
  }

  function Prepend(t: Table, s: Session): Table {
    Table([s] + t.list, t.calls + [Opened(Socket(s))])
  }

  function Unlink(t: Table, i: nat, closed: seq<int>): Table
    requires i < |t.list|
  {
    Table(t.list[..i] + t.list[i + 1..], t.calls + Closes(closed))
  }

  lemma OneMoreCall(calls: seq<Call>, c: Call)
    ensures OpenFds(calls + [c]) == Apply(OpenFds(calls), c)
    ensures Lawful(calls + [c]) <==> Lawful(calls) && Allowed(OpenFds(calls), c)
  {
    assert (calls + [c])[..|calls|] == calls;
  }

  lemma ReplaceDistinct(list: seq<Session>, i: nat, n: Session)
    requires i < |list| && DistinctSockets(list) && (Socket(n) == Socket(list[i]) || Socket(n) == -1)
    ensures DistinctSockets(list[i := n])
  {
    hide Socket;
  }

  /** A session that keeps its socket, or gives it up, and what is open then. */
  lemma ReplaceOwns(list: seq<Session>, i: nat, n: Session, open: set<int>)
    requires i < |list| && DistinctSockets(list) && OwnsAll(list, open)
    requires Socket(n) == Socket(list[i]) || Socket(n) == -1
    ensures OwnsAll(list[i := n], if Socket(n) == Socket(list[i]) then open else open - {Socket(list[i])})
  {
    hide Socket;
    var r := list[i := n];
    var left := if Socket(n) == Socket(list[i]) then open else open - {Socket(list[i])};
    assert list[i] in list;
    forall s | s in r && Socket(s) >= 0 ensures Socket(s) in left {
      var j :| 0 <= j < |r| && r[j] == s;
      assert list[j] in list;
    }
    forall fd | fd in left ensures fd >= 0 && exists s :: s in r && Socket(s) == fd {
      var s :| s in list && Socket(s) == fd;
      var j :| 0 <= j < |list| && list[j] == s;
      assert r[j] in r && Socket(r[j]) == fd;
    }
  }

  lemma ReplaceKeeps(t: Table, i: nat, n: Session, closed: seq<int>)
    requires TableInv(t) && i < |t.list| && SessionOk(n) && OwnClose(t.list[i], n, closed)
    ensures TableInv(Replace(t, i, n, closed))
  {
    hide SessionOk, Lawful, DistinctSockets, OwnsAll, Socket;
    var d := Replace(t, i, n, closed);
    ReplaceDistinct(t.list, i, n);
    ReplaceOwns(t.list, i, n, OpenFds(t.calls));
    forall s | s in d.list ensures SessionOk(s) {
      var j :| 0 <= j < |d.list| && d.list[j] == s;
      assert j != i ==> t.list[j] in t.list;
    }
    if closed == [] {
      assert d.calls == t.calls;
    } else {
      assert t.list[i] in t.list;
      SocketIsOpen(t, t.list[i]);
      assert Closes(closed) == [CloseCall(Socket(t.list[i]))];
      OneMoreCall(t.calls, CloseCall(Socket(t.list[i])));
    }
  }

  lemma SocketIsOpen(t: Table, s: Session)
    requires TableInv(t) && s in t.list
    ensures Socket(s) >= 0 ==> Socket(s) in OpenFds(t.calls)
  {}

  lemma PrependKeeps(t: Table, s: Session)
    requires TableInv(t) && SessionOk(s) && Socket(s) >= 0 && Socket(s) !in OpenFds(t.calls)
    ensures TableInv(Prepend(t, s))
  {
    var d := Prepend(t, s);
    OneMoreCall(t.calls, Opened(Socket(s)));
    forall i, j | 0 <= i < j < |d.list| && Socket(d.list[i]) >= 0 ensures Socket(d.list[i]) != Socket(d.list[j]) {
      assert d.list[j] == t.list[j - 1] && t.list[j - 1] in t.list;
      if i > 0 {
        assert d.list[i] == t.list[i - 1];
      }
    }
    forall fd | fd in OpenFds(d.calls) ensures fd >= 0 && exists x :: x in d.list && Socket(x) == fd {
      if fd in OpenFds(t.calls) {
        var x :| x in t.list && Socket(x) == fd;
        assert x in d.list;
      } else {
        assert s in d.list;
      }
    }
  }

  /** A session leaves with its socket closed before, or now. */
  predicate LastClose(s: Session, closed: seq<int>) {
    (Socket(s) < 0 && closed == []) || (Socket(s) >= 0 && closed == [Socket(s)])
  }

  lemma UnlinkKeeps(t: Table, i: nat, closed: seq<int>)
    requires TableInv(t) && i < |t.list| && LastClose(t.list[i], closed)
    ensures TableInv(Unlink(t, i, closed))
  {
    var d := Unlink(t, i, closed);
    if closed == [] {
      assert d.calls == t.calls;
    } else {
      assert t.list[i] in t.list;
      assert Closes(closed) == [CloseCall(Socket(t.list[i]))];
      OneMoreCall(t.calls, CloseCall(Socket(t.list[i])));
    }
    UnlinkedSessions(t.list, i);
    forall fd | fd in OpenFds(d.calls) ensures fd >= 0 && exists x :: x in d.list && Socket(x) == fd {
      var x :| x in t.list && Socket(x) == fd;
      assert x != t.list[i];
    }
  }

  /** What is left after unlinking position i. */
  lemma UnlinkedSessions(list: seq<Session>, i: nat)
    requires i < |list| && DistinctSockets(list)
    ensures var l := list[..i] + list[i + 1..];
            && DistinctSockets(l)
            && (forall s | s in l :: s in list)
            && (forall s | s in list && s != list[i] :: s in l)
            && (Socket(list[i]) >= 0 ==> forall s | s in l :: Socket(s) != Socket(list[i]))
  {
    var l := list[..i] + list[i + 1..];
    assert forall j | 0 <= j < |l| :: l[j] == list[if j < i then j else j + 1];
    forall s | s in list && s != list[i] ensures s in l {
      var j :| 0 <= j < |list| && list[j] == s;
      assert l[if j < i then j else j - 1] == s;
    }
    forall s | s in l ensures s in list && (Socket(list[i]) >= 0 ==> Socket(s) != Socket(list[i])) {
      var j :| 0 <= j < |l| && l[j] == s;
      assert list[if j < i then j else j + 1] == s;
    }
  }

  // ---------- passes over the list ----------

  lemma {:induction false} ClosesConcat(a: seq<int>, b: seq<int>)
    ensures Closes(a + b) == Closes(a) + Closes(b)
  {
    if a == [] {
      assert a + b == b;
    } else {
      assert (a + b)[1..] == a[1..] + b;
      ClosesConcat(a[1..], b);
    }
  }

  /** The outcome of a check is one the table can apply. */
  ghost predicate Sane(s: Session, o: Outcome) {
    if o.del then LastClose(s, o.closed) else SessionOk(o.session) && OwnClose(s, o.session, o.closed)
  }

  /** One step of a pass, as a change of the list. */
  lemma PassStepList(done: seq<Session>, rest: seq<Session>, n: Session)
    requires rest != []
    ensures (done + rest)[|done|] == rest[0]
    ensures (done + rest)[..|done|] + (done + rest)[|done| + 1..] == done + rest[1..]
    ensures (done + rest)[|done| := n] == (done + [n]) + rest[1..]
  {
  }

  lemma PassStepCalls(outs: seq<Outcome>, calls: seq<Call>)
    requires outs != []
    ensures calls + Closes(AllCloses(outs)) == (calls + Closes(outs[0].closed)) + Closes(AllCloses(outs[1..]))
  {
    ClosesConcat(outs[0].closed, AllCloses(outs[1..]));
  }

  lemma PassStepSurvivors(done: seq<Session>, outs: seq<Outcome>)
    requires outs != []
    ensures done + Survivors(outs) == (if outs[0].del then done else done + [outs[0].session]) + Survivors(outs[1..])
  {
  }

  /** A pass that replaces or unlinks every session in turn, the first ones already done. */
  lemma {:induction false} PassKeeps(done: seq<Session>, rest: seq<Session>, outs: seq<Outcome>, calls: seq<Call>)
    requires TableInv(Table(done + rest, calls)) && |outs| == |rest|
    requires forall i | 0 <= i < |rest| :: Sane(rest[i], outs[i])
    ensures TableInv(Table(done + Survivors(outs), calls + Closes(AllCloses(outs))))
    decreases |rest|
  {
    if rest == [] {
      assert done + Survivors(outs) == done + rest && calls + Closes(AllCloses(outs)) == calls;
    } else {
      PassStepList(done, rest, outs[0].session);
      PassStepCalls(outs, calls);
      PassStepSurvivors(done, outs);
      assert Sane(rest[0], outs[0]);
      if outs[0].del {
        UnlinkKeeps(Table(done + rest, calls), |done|, outs[0].closed);
        PassKeeps(done, rest[1..], outs[1..], calls + Closes(outs[0].closed));
      } else {
        ReplaceKeeps(Table(done + rest, calls), |done|, outs[0].session, outs[0].closed);
        PassKeeps(done + [outs[0].session], rest[1..], outs[1..], calls + Closes(outs[0].closed));
      }
    }
  }

  lemma CheckIsSane(s: Session, now: int, sessions: int, maxSessions: int, ok: bool)
    requires SessionOk(s) && maxSessions > 0
    ensures Sane(s, CheckOne(s, now, sessions, maxSessions, ok))
  {
    if s.Tcp? {
      CheckSessionKeeps(s.tcp.conn, now, sessions, maxSessions, ok);
    }
  }

  /** check_allowed for one session. */
  function AllowOne(s: Session, ok: bool): Outcome {
    match s
    case Icmp(i) => Outcome(Icmp(i.(stop := true)), false, [])
    case Udp(u) =>
      if u.state == Active then Outcome(Udp(u.(state := Finishing)), false, []) else Outcome(s, u.state == Blocked, [])
    case Tcp(t) => Outcome(if IsLive(s) then Tcp(t.(conn := WriteRst(t.conn, ok))) else s, false, [])
  }

  function AllowAll(list: seq<Session>, oks: seq<bool>): (r: seq<Outcome>)
    requires |oks| == |list|
    ensures |r| == |list| && forall i | 0 <= i < |r| :: r[i] == AllowOne(list[i], oks[i])
  {
    seq(|list|, i requires 0 <= i < |list| => AllowOne(list[i], oks[i]))
  }

  lemma AllowIsSane(s: Session, ok: bool)
    requires SessionOk(s)
    ensures Sane(s, AllowOne(s, ok))
  {
    if s.Tcp? {
      WriteRstKeeps(s.tcp.conn, ok);
    }
  }

  // ---------- single events ----------

  /** The first session that matches, or the length of the list. */
  function FindTcp(list: seq<Session>, key: Key): (i: nat)
    ensures i <= |list| && (i < |list| ==> list[i].Tcp? && list[i].tcp.key == key)
    ensures forall j | 0 <= j < i :: !(list[j].Tcp? && list[j].tcp.key == key)
  {
    if list == [] || (list[0].Tcp? && list[0].tcp.key == key) then 0 else 1 + FindTcp(list[1..], key)
  }

  function FindUdp(list: seq<Session>, key: Key): (i: nat)
    ensures i <= |list| && (i < |list| ==> list[i].Udp? && list[i].udp.key == key)
    ensures forall j | 0 <= j < i :: !(list[j].Udp? && list[j].udp.key == key)
  {
    if list == [] || (list[0].Udp? && list[0].udp.key == key) then 0 else 1 + FindUdp(list[1..], key)
  }

  predicate SameHosts(a: Key, b: Key) {
    a.version == b.version && a.source == b.source && a.destination == b.destination
  }

  function FindIcmp(list: seq<Session>, key: Key): (i: nat)
    ensures i <= |list| && (i < |list| ==> list[i].Icmp? && !list[i].icmp.stop && SameHosts(list[i].icmp.key, key))
    ensures forall j | 0 <= j < i :: !(list[j].Icmp? && !list[j].icmp.stop && SameHosts(list[j].icmp.key, key))
  {
    if list == [] || (list[0].Icmp? && !list[0].icmp.stop && SameHosts(list[0].icmp.key, key)) then 0
    else 1 + FindIcmp(list[1..], key)
  }

  /** The rest of handle_udp for an active session: refresh the timer and send. */
  function SendUdp(u: UdpSession, now: int, dhcp: bool, failed: bool): UdpSession {
    if dhcp then u else u.(time := now, state := if failed then Finishing else u.state)
  }

  datatype Read = Idle | Retry | Fatal | Ended | Relayed(ok: bool)

  /** check_udp_socket. */
  function ReadUdp(u: UdpSession, now: int, err: bool, read: Read): UdpSession {
    if err then u.(time := now, state := Finishing)
    else match read
         case Idle => u
         case Retry => u.(time := now)
         case Relayed(ok) => if ok && u.port != DNS_PORT then u.(time := now) else u.(time := now, state := Finishing)
         case _ => u.(time := now, state := Finishing)
  }

  /** check_icmp_socket. */
  function ReadIcmp(i: IcmpSession, now: int, err: bool, read: Read): IcmpSession {
    if err then i.(time := now, stop := true)
    else match read
         case Idle => i
         case Retry => i.(time := now)
         case Relayed(ok) => i.(time := now, stop := i.stop || !ok)
         case _ => i.(time := now, stop := true)
  }

  /** The options and environment of a new TCP session. */
  datatype Setup = Setup(sub: Subtraction, mss: u16, scale: nat, isn: u32, buffer: SendBuffer)

  datatype TableEvent =
    | TcpPacket(key: Key, port: u16, packet: Packet, now: int, fd: int, setup: Setup, sendOk: bool, ok: bool)
    | TcpEvent(index: nat, event: Event)
    | UdpPacket(key: Key, port: u16, now: int, fd: int, dhcp: bool, failed: bool)
    | UdpReady(index: nat, now: int, err: bool, read: Read)
    | IcmpPacket(key: Key, now: int, fd: int, failed: bool)
    | IcmpReady(index: nat, now: int, err: bool, read: Read)
    | CheckAll(now: int, sessions: int, maxSessions: int, oks: seq<bool>)
    | CheckAllowed(oks: seq<bool>)
    | Clear

  /** A descriptor the kernel may return: none, or one that is not open. */
  predicate FreshFd(t: Table, fd: int) {
    fd >= 0 ==> fd !in OpenFds(t.calls)
  }

  /** What the surroundings guarantee; events are reported only for open sockets. */
  ghost predicate Possible(t: Table, e: TableEvent) {
    match e
    case TcpPacket(key, _, p, _, fd, _, sendOk, _) =>
      && FreshFd(t, fd) && |p.data| < 0x1_0000
      && var i := FindTcp(t.list, key); i < |t.list| ==> (sendOk ==> Socket(t.list[i]) >= 0)
    case TcpEvent(i, ev) =>
      i < |t.list| && t.list[i].Tcp? && (ev.Ready? || ev.Watch?)
      && TcpQueue.AllSound(t.list[i].tcp.conn.t.forward) && Enabled(t.list[i].tcp.conn, ev)
    case UdpPacket(_, _, _, fd, _, _) => FreshFd(t, fd)
    case UdpReady(i, _, _, _) => i < |t.list| && t.list[i].Udp? && Socket(t.list[i]) >= 0
    case IcmpPacket(_, _, fd, _) => FreshFd(t, fd)
    case IcmpReady(i, _, _, _) => i < |t.list| && t.list[i].Icmp?
    case CheckAll(_, _, maxSessions, oks) => maxSessions > 0 && |oks| == |t.list|
    case CheckAllowed(oks) => |oks| == |t.list|
    case Clear => true
  }

  /** The session a SYN registers. */
  function NewTcp(key: Key, port: u16, p: Packet, now: int, fd: int, setup: Setup): Session
    requires |p.data| < 0x1_0000
  {
    Tcp(TcpSession(key, NewConn(setup.sub, p, setup.mss, setup.scale, setup.isn, port, fd, now, setup.buffer)))
  }

  /** handle_tcp. */
  function TcpPacketStep(t: Table, key: Key, port: u16, p: Packet, now: int, fd: int, setup: Setup,
                         sendOk: bool, ok: bool): Table
    requires |p.data| < 0x1_0000
  {
    var i := FindTcp(t.list, key);
    if p.urg then t
    else if i < |t.list| then
      var c := t.list[i].tcp.conn;
      var d := HandlePacket(c, p, now, sendOk, ok);
      Replace(t, i, Tcp(t.list[i].tcp.(conn := d)), NewCloses(c, d))
    else if p.syn && fd >= 0 then
      Prepend(t, NewTcp(key, port, p, now, fd, setup))
    else t
  }

  /** handle_udp. */
  function UdpPacketStep(t: Table, key: Key, port: u16, now: int, fd: int, dhcp: bool, failed: bool): Table {
    var i := FindUdp(t.list, key);
    if i < |t.list| then
      if t.list[i].udp.state == Active then Replace(t, i, Udp(SendUdp(t.list[i].udp, now, dhcp, failed)), []) else t
    else if fd >= 0 then Prepend(t, Udp(SendUdp(UdpSession(key, now, Active, port, fd), now, dhcp, failed)))
    else t
  }

  /** handle_icmp. */
  function IcmpPacketStep(t: Table, key: Key, now: int, fd: int, failed: bool): Table {
    var i := FindIcmp(t.list, key);
    if i < |t.list| then
      Replace(t, i, Icmp(t.list[i].icmp.(time := now, stop := failed)), [])
    else if fd >= 0 then Prepend(t, Icmp(IcmpSession(key, now, failed, fd)))
    else t
  }

  /** The sockets that clear() closes, in list order. */
  function OpenSockets(list: seq<Session>): seq<int> {
    if list == [] then [] else (if Socket(list[0]) >= 0 then [Socket(list[0])] else []) + OpenSockets(list[1..])
  }

  ghost function TableStep(t: Table, e: TableEvent): Table
    requires Possible(t, e)
  {
    match e
    case TcpPacket(key, port, p, now, fd, setup, sendOk, ok) =>
      TcpPacketStep(t, key, port, p, now, fd, setup, sendOk, ok)
    case TcpEvent(i, ev) =>
      var c := t.list[i].tcp.conn;
      var d := Step(c, ev);
      Replace(t, i, Tcp(t.list[i].tcp.(conn := d)), NewCloses(c, d))
    case UdpPacket(key, port, now, fd, dhcp, failed) => UdpPacketStep(t, key, port, now, fd, dhcp, failed)
    case UdpReady(i, now, err, read) => Replace(t, i, Udp(ReadUdp(t.list[i].udp, now, err, read)), [])
    case IcmpPacket(key, now, fd, failed) => IcmpPacketStep(t, key, now, fd, failed)
    case IcmpReady(i, now, err, read) => Replace(t, i, Icmp(ReadIcmp(t.list[i].icmp, now, err, read)), [])
    case CheckAll(now, sessions, maxSessions, oks) =>
      var p := CheckPass(t.list, now, sessions, maxSessions, oks);
      Table(p.list, t.calls + Closes(p.closed))
    case CheckAllowed(oks) =>
      var outs := AllowAll(t.list, oks);
      Table(Survivors(outs), t.calls + Closes(AllCloses(outs)))
    case Clear => Table([], t.calls + Closes(OpenSockets(t.list)))
  }

  // ---------- every step keeps the invariant ----------

  lemma TcpReplaceKeeps(t: Table, i: nat, d: Conn)
    requires TableInv(t) && i < |t.list| && t.list[i].Tcp?
    requires TcpAccounting.Inv(d) && ClosesOwnSocket(t.list[i].tcp.conn, d)
    ensures TableInv(Replace(t, i, Tcp(t.list[i].tcp.(conn := d)), NewCloses(t.list[i].tcp.conn, d)))
  {
    ReplaceKeeps(t, i, Tcp(t.list[i].tcp.(conn := d)), NewCloses(t.list[i].tcp.conn, d));
  }

  lemma TcpPacketKeeps(t: Table, key: Key, port: u16, p: Packet, now: int, fd: int, setup: Setup,
                       sendOk: bool, ok: bool)
    requires TableInv(t) && Possible(t, TcpPacket(key, port, p, now, fd, setup, sendOk, ok))
    ensures TableInv(TcpPacketStep(t, key, port, p, now, fd, setup, sendOk, ok))
  {
    var i := FindTcp(t.list, key);
    if p.urg {
    } else if i < |t.list| {
      assert SessionOk(t.list[i]);
      ArriveKeeps(t.list[i].tcp.conn, p, now, sendOk, ok);
      TcpReplaceKeeps(t, i, HandlePacket(t.list[i].tcp.conn, p, now, sendOk, ok));
    } else if p.syn && fd >= 0 {
      NewSessionInv(setup.sub, p, setup.mss, setup.scale, setup.isn, port, fd, now, setup.buffer);
      PrependKeeps(t, NewTcp(key, port, p, now, fd, setup));
    }
  }

  lemma UdpPacketKeeps(t: Table, key: Key, port: u16, now: int, fd: int, dhcp: bool, failed: bool)
    requires TableInv(t) && FreshFd(t, fd)
    ensures TableInv(UdpPacketStep(t, key, port, now, fd, dhcp, failed))
  {
    var i := FindUdp(t.list, key);
    if i < |t.list| {
      assert SessionOk(t.list[i]);
      if t.list[i].udp.state == Active {
        ReplaceKeeps(t, i, Udp(SendUdp(t.list[i].udp, now, dhcp, failed)), []);
      }
    } else if fd >= 0 {
      PrependKeeps(t, Udp(SendUdp(UdpSession(key, now, Active, port, fd), now, dhcp, failed)));
    }
  }

  lemma IcmpPacketKeeps(t: Table, key: Key, now: int, fd: int, failed: bool)
    requires TableInv(t) && FreshFd(t, fd)
    ensures TableInv(IcmpPacketStep(t, key, now, fd, failed))
  {
    var i := FindIcmp(t.list, key);
    if i < |t.list| {
      assert SessionOk(t.list[i]);
      ReplaceKeeps(t, i, Icmp(t.list[i].icmp.(time := now, stop := failed)), []);
    } else if fd >= 0 {
      PrependKeeps(t, Icmp(IcmpSession(key, now, failed, fd)));
    }
  }

  /** clear() deletes every session and closes what is open. */
  function ClearOutcomes(list: seq<Session>): (r: seq<Outcome>)
    ensures |r| == |list|
    ensures forall i | 0 <= i < |r| ::
              r[i] == Outcome(list[i], true, if Socket(list[i]) >= 0 then [Socket(list[i])] else [])
  {
    seq(|list|, i requires 0 <= i < |list| =>
      Outcome(list[i], true, if Socket(list[i]) >= 0 then [Socket(list[i])] else []))
  }

  lemma {:induction false} ClearIsPass(list: seq<Session>)
    ensures Survivors(ClearOutcomes(list)) == [] && AllCloses(ClearOutcomes(list)) == OpenSockets(list)
  {
    if list == [] {
    } else {
      assert ClearOutcomes(list)[1..] == ClearOutcomes(list[1..]);
      ClearIsPass(list[1..]);
    }
  }

  lemma PassOverAll(t: Table, outs: seq<Outcome>)
    requires TableInv(t) && |outs| == |t.list| && (forall i | 0 <= i < |t.list| :: Sane(t.list[i], outs[i]))
    ensures TableInv(Table(Survivors(outs), t.calls + Closes(AllCloses(outs))))
  {
    hide TableInv, Sane, Survivors, AllCloses, Closes;
    assert [] + t.list == t.list && [] + Survivors(outs) == Survivors(outs);
    assert Table([] + t.list, t.calls) == t;
    PassKeeps([], t.list, outs, t.calls);
  }

  lemma ClearKeeps(t: Table)
    requires TableInv(t)
    ensures TableInv(Table([], t.calls + Closes(OpenSockets(t.list))))
  {
    ClearIsPass(t.list);
    PassOverAll(t, ClearOutcomes(t.list));
  }

  lemma CheckAllKeeps(t: Table, now: int, sessions: int, maxSessions: int, oks: seq<bool>)
    requires TableInv(t) && maxSessions > 0 && |oks| == |t.list|
    ensures var p := CheckPass(t.list, now, sessions, maxSessions, oks);
            TableInv(Table(p.list, t.calls + Closes(p.closed)))
  {
    var outs := Outcomes(t.list, now, sessions, maxSessions, oks);
    forall i | 0 <= i < |t.list| ensures Sane(t.list[i], outs[i]) {
      CheckIsSane(t.list[i], now, sessions, maxSessions, oks[i]);
    }
    PassOverAll(t, outs);
  }

  lemma CheckAllowedKeeps(t: Table, oks: seq<bool>)
    requires TableInv(t) && |oks| == |t.list|
    ensures var outs := AllowAll(t.list, oks);
            TableInv(Table(Survivors(outs), t.calls + Closes(AllCloses(outs))))
  {
    var outs := AllowAll(t.list, oks);
    forall i | 0 <= i < |t.list| ensures Sane(t.list[i], outs[i]) {
      AllowIsSane(t.list[i], oks[i]);
    }
    PassOverAll(t, outs);
  }

  lemma TableStepKeeps(t: Table, e: TableEvent)
    requires TableInv(t) && Possible(t, e)
    ensures TableInv(TableStep(t, e))
  {
    match e
    case TcpPacket(key, port, p, now, fd, setup, sendOk, ok) =>
      TcpPacketKeeps(t, key, port, p, now, fd, setup, sendOk, ok);
    case TcpEvent(i, ev) =>
      assert SessionOk(t.list[i]);
      StepKeeps(t.list[i].tcp.conn, ev);
      TcpReplaceKeeps(t, i, Step(t.list[i].tcp.conn, ev));
    case UdpPacket(key, port, now, fd, dhcp, failed) => UdpPacketKeeps(t, key, port, now, fd, dhcp, failed);
    case UdpReady(i, now, err, read) =>
      assert SessionOk(t.list[i]);
      ReplaceKeeps(t, i, Udp(ReadUdp(t.list[i].udp, now, err, read)), []);
    case IcmpPacket(key, now, fd, failed) => IcmpPacketKeeps(t, key, now, fd, failed);
    case IcmpReady(i, now, err, read) =>
      assert SessionOk(t.list[i]);
      ReplaceKeeps(t, i, Icmp(ReadIcmp(t.list[i].icmp, now, err, read)), []);
    case CheckAll(now, sessions, maxSessions, oks) => CheckAllKeeps(t, now, sessions, maxSessions, oks);
    case CheckAllowed(oks) => CheckAllowedKeeps(t, oks);
    case Clear => ClearKeeps(t);
  }

  // ---------- runs ----------

  ghost predicate TableRun(t: Table, es: seq<TableEvent>)
    decreases |es|
  {
    es == [] || (Possible(t, es[0]) && TableRun(TableStep(t, es[0]), es[1..]))
  }

  ghost function AfterRun(t: Table, es: seq<TableEvent>): Table
    requires TableRun(t, es)
    decreases |es|
  {
    if es == [] then t else AfterRun(TableStep(t, es[0]), es[1..])
  }

  lemma {:induction false} RunKeepsTable(t: Table, es: seq<TableEvent>)
    requires TableInv(t) && TableRun(t, es)
    ensures TableInv(AfterRun(t, es))
    decreases |es|
  {
    if es == [] {
    } else {
      TableStepKeeps(t, es[0]);
      RunKeepsTable(TableStep(t, es[0]), es[1..]);
    }
  }

  /**
    Descriptor ownership over every run from the empty table: the open
    descriptors are the non-negative sockets of the list, all distinct, and no
    close ever hits a descriptor that is not open.
  */
  lemma OpenFdsAreOwned(es: seq<TableEvent>)
    requires TableRun(Table([], []), es)
    ensures var t := AfterRun(Table([], []), es);
            && Lawful(t.calls) && DistinctSockets(t.list)
            && (forall fd :: fd in OpenFds(t.calls) <==> fd >= 0 && exists s :: s in t.list && Socket(s) == fd)
  {
    assert OpenFds([]) == {};
    RunKeepsTable(Table([], []), es);
    var t := AfterRun(Table([], []), es);
    forall fd ensures fd in OpenFds(t.calls) <==> fd >= 0 && exists s :: s in t.list && Socket(s) == fd {
    }
  }

  /** And once clear() has run every descriptor was closed exactly as often as it was opened. */
  lemma ClearBalances(es: seq<TableEvent>, fd: int)
    requires TableRun(Table([], []), es)
    ensures var calls := TableStep(AfterRun(Table([], []), es), Clear).calls;
            Times(calls, Opened(fd)) == Times(calls, CloseCall(fd)) && OpenFds(calls) == {}
  {
    assert OpenFds([]) == {};
    RunKeepsTable(Table([], []), es);
    var t := AfterRun(Table([], []), es);
    TableStepKeeps(t, Clear);
    ClosedOncePerOpen(TableStep(t, Clear).calls, fd);
    OwnsNothing(OpenFds(TableStep(t, Clear).calls));
  }

  lemma OwnsNothing(open: set<int>)
    requires OwnsAll([], open)
    ensures open == {}
  {
    assert forall fd :: fd !in open;
  }
}
