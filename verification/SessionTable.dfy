/**
  The table of TCP, UDP and ICMP sessions: who holds which file descriptor,
  what the periodic check removes, and how long the event loop may sleep.
*/
module SessionTable {
  import opened Words
  import opened TcpModel
  import TcpEvents

  const EPOLL_TIMEOUT := 3600
  const ICMP_TIMEOUT := 15
  const UDP_TIMEOUT_53 := 15
  const UDP_TIMEOUT_ANY := 300
  const UDP_KEEP_TIMEOUT := 60
  const DNS_PORT: u16 := 53

  datatype UdpState = Active | Finishing | Closed | Blocked

  /** Version, addresses and ports; an ICMP session has no ports. */
  datatype Key = Key(version: int, source: int, sourcePort: int, destination: int, destinationPort: int)

  datatype IcmpSession = IcmpSession(key: Key, time: int, stop: bool, socket: int)

  datatype UdpSession = UdpSession(key: Key, time: int, state: UdpState, port: u16, socket: int)

  datatype TcpSession = TcpSession(key: Key, conn: Conn)

  datatype Session = Icmp(icmp: IcmpSession) | Udp(udp: UdpSession) | Tcp(tcp: TcpSession)

  function Socket(s: Session): int {
    match s
    case Icmp(i) => i.socket
    case Udp(u) => u.socket
    case Tcp(t) => t.conn.t.socket
  }

  /** Sessions that count toward the load and have a deadline. */
  predicate IsLive(s: Session) {
    match s
    case Icmp(i) => !i.stop
    case Udp(u) => u.state == Active
    case Tcp(t) => t.conn.t.state != Closing && t.conn.t.state != Close
  }

  // ---------- timeouts ----------

  /** get_icmp_timeout, get_udp_timeout and get_tcp_timeout. */
  function Timeout(s: Session, sessions: int, maxSessions: int): int
    requires maxSessions > 0
  {
    match s
    case Icmp(_) => Scaled(ICMP_TIMEOUT, sessions, maxSessions)
    case Udp(u) => Scaled(if u.port == DNS_PORT then UDP_TIMEOUT_53 else UDP_TIMEOUT_ANY, sessions, maxSessions)
    case Tcp(t) => GetTcpTimeout(t.conn.t.state, sessions, maxSessions)
  }

  function LastUse(s: Session): int {
    match s
    case Icmp(i) => i.time
    case Udp(u) => u.time
    case Tcp(t) => t.conn.t.time
  }

  /** The last second at which the session is still in time. */
  function Deadline(s: Session, sessions: int, maxSessions: int): int
    requires maxSessions > 0
  {
    LastUse(s) + Timeout(s, sessions, maxSessions)
  }

  /** What the check compares with the clock. */
  predicate Expirable(s: Session, now: int, sessions: int, maxSessions: int)
    requires maxSessions > 0
  {
    Deadline(s, sessions, maxSessions) < now
  }

  lemma MulMonotone(a: nat, b: nat, m: nat)
    requires a <= b
    ensures a * m <= b * m
  {
  }

  lemma QuotientAtLeast(q: nat, a: nat, m: nat)
    requires m > 0 && q * m <= a
    ensures q <= a / m
  {
    if q > a / m {
      MulMonotone(a / m + 1, q, m);
      assert false;
    }
  }

  lemma DivMonotone(a: nat, b: nat, m: nat)
    requires a <= b && m > 0
    ensures a / m <= b / m
  {
    QuotientAtLeast(a / m, b, m);
  }

  lemma QuotientAtMost(k: nat, a: nat, m: nat)
    requires m > 0 && a <= k * m
    ensures a / m <= k
  {
    if a / m > k {
      MulMonotone(k + 1, a / m, m);
      assert false;
    }
  }

  /** The share of load in percent, for loads up to the maximum. */
  lemma LoadShare(n: nat, m: nat, maxSessions: nat)
    requires maxSessions > 0 && n <= m <= maxSessions
    ensures 0 <= n * 100 / maxSessions <= m * 100 / maxSessions <= 100
    ensures maxSessions * 100 / maxSessions == 100
  {
    DivMonotone(n * 100, m * 100, maxSessions);
    QuotientAtMost(100, m * 100, maxSessions);
    QuotientAtMost(100, maxSessions * 100, maxSessions);
    QuotientAtLeast(100, maxSessions * 100, maxSessions);
  }

  /** Up to the maximum load a timeout lies between 0 and its base, and only shrinks as the load grows. */
  lemma TimeoutBounds(base: nat, n: nat, m: nat, maxSessions: nat)
    requires maxSessions > 0 && n <= m <= maxSessions
    ensures 0 <= Scaled(base, m, maxSessions) <= Scaled(base, n, maxSessions) <= base
    ensures Scaled(base, 0, maxSessions) == base && Scaled(base, maxSessions, maxSessions) == 0
  {
    LoadShare(n, m, maxSessions);
    var sn: nat, sm: nat := 100 - n * 100 / maxSessions, 100 - m * 100 / maxSessions;
    MulMonotone(sm, sn, base);
    MulMonotone(sn, 100, base);
    assert 0 * 100 / maxSessions == 0;
  }

  // ---------- the periodic check of one session ----------

  /** A check's result: the session afterwards, whether to remove it, and the arguments of close(). */
  datatype Outcome = Outcome(session: Session, del: bool, closed: seq<int>)

  function FinishUdp(u: UdpSession, now: int): UdpSession {
    if u.state == Finishing then u.(socket := -1, time := now, state := Closed) else u
  }

  /** check_udp_session. */
  function CheckUdp(u: UdpSession, now: int, timeout: int): Outcome {
    var u1 := if u.state == Active && u.time + timeout < now then u.(state := Finishing) else u;
    var u2 := FinishUdp(u1, now);
    Outcome(Udp(u2), (u2.state == Closed || u2.state == Blocked) && u2.time + UDP_KEEP_TIMEOUT < now,
            if u1.state == Finishing then [u1.socket] else [])
  }

  /** check_icmp_session. */
  function CheckIcmp(i: IcmpSession, now: int, timeout: int): Outcome {
    if i.stop || i.time + timeout < now then Outcome(Icmp(i.(socket := -1)), true, [i.socket])
    else Outcome(Icmp(i), false, [])
  }

  function CheckOne(s: Session, now: int, sessions: int, maxSessions: int, ok: bool): Outcome
    requires maxSessions > 0
  {
    match s
    case Icmp(i) => CheckIcmp(i, now, Timeout(s, sessions, maxSessions))
    case Udp(u) => CheckUdp(u, now, Timeout(s, sessions, maxSessions))
    case Tcp(t) =>
      var r := CheckSession(t.conn, now, sessions, maxSessions, ok);
      Outcome(Tcp(t.(conn := r.0)), r.1, NewCloses(t.conn, r.0))
  }

  /** The close() calls a TCP step added to its log. */
  function NewCloses(c: Conn, d: Conn): seq<int> {
    if |c.log.closed| <= |d.log.closed| then d.log.closed[|c.log.closed|..] else []
  }

  /** A session that is live after its check was in time, and was left alone. */
  lemma LiveAfterCheck(s: Session, now: int, sessions: int, maxSessions: int, ok: bool)
    requires maxSessions > 0
    ensures var r := CheckOne(s, now, sessions, maxSessions, ok);
            !r.del && IsLive(r.session) ==> r.session == s && now <= Deadline(s, sessions, maxSessions)
  {
  }

  /** The seconds without use, and without load, after which a session is out of time. */
  function BaseSeconds(s: Session): nat {
    match s
    case Icmp(_) => 15
    case Udp(u) => if u.port == 53 then 15 else 300
    case Tcp(t) => TcpEvents.IdleSeconds(t.conn.t.state)
  }

  /** Every timeout starts from these seconds and loses the percentage of sessions in use. */
  lemma TimeoutsInSeconds(s: Session, n: nat, maxSessions: nat, percent: nat)
    requires 0 < maxSessions && n <= maxSessions
    requires percent * maxSessions <= n * 100 < (percent + 1) * maxSessions
    ensures var t := Timeout(s, n, maxSessions); 100 * t <= BaseSeconds(s) * (100 - percent) < 100 * t + 100
    ensures Timeout(s, 0, maxSessions) == BaseSeconds(s)
  {
    TcpEvents.ShortenedByLoad(BaseSeconds(s), n, maxSessions, percent);
    TcpEvents.NotShortened(BaseSeconds(s), maxSessions);
    hide Scaled;
  }

  /** A UDP session in time is left alone; out of time, or finished, it gives up its socket and lingers 60 seconds. */
  lemma UdpCheck(u: UdpSession, now: int, sessions: int, maxSessions: int, ok: bool)
    requires maxSessions > 0
    ensures var r := CheckOne(Udp(u), now, sessions, maxSessions, ok);
            if u.state == Closed || u.state == Blocked then
              r == Outcome(Udp(u), now > u.time + 60, [])
            else if u.state == Finishing || now > u.time + Timeout(Udp(u), sessions, maxSessions) then
              r == Outcome(Udp(UdpSession(u.key, now, Closed, u.port, -1)), false, [u.socket])
            else r == Outcome(Udp(u), false, [])
  {
    hide Scaled;
  }

  /** An ICMP session that stopped, or is out of time, is closed and removed. */
  lemma IcmpCheck(i: IcmpSession, now: int, sessions: int, maxSessions: int, ok: bool)
    requires maxSessions > 0
    ensures var r := CheckOne(Icmp(i), now, sessions, maxSessions, ok);
            if i.stop || now > i.time + Timeout(Icmp(i), sessions, maxSessions) then
              r.del && r.closed == [i.socket]
            else r == Outcome(Icmp(i), false, [])
  {
    hide Scaled;
  }

  /** A TCP session out of time, or closing, gives up its socket; a closed one lingers 300 seconds. */
  lemma TcpCheck(t: TcpSession, now: int, sessions: int, maxSessions: int, ok: bool)
    requires maxSessions > 0
    ensures var c := t.conn;
            var r := CheckOne(Tcp(t), now, sessions, maxSessions, ok);
            if c.t.state == Close then r == Outcome(Tcp(t), now > c.t.time + 300, [])
            else if c.t.state == Closing || now > c.t.time + Timeout(Tcp(t), sessions, maxSessions) then
              && !r.del && r.session.Tcp? && r.session.tcp.key == t.key
              && r.session.tcp.conn.t.state == Close && r.session.tcp.conn.t.socket < 0
              && r.session.tcp.conn.t.time == now
              && r.closed == (if c.t.socket >= 0 then [c.t.socket] else [])
            else r == Outcome(Tcp(t), false, [])
  {
    hide GetTcpTimeout, Scaled, Mod32;
  }

  // ---------- one pass over the list ----------

  /** The wait until a session becomes expirable, if it is shorter. */
  function Tighten(wait: int, s: Session, now: int, sessions: int, maxSessions: int): int
    requires maxSessions > 0
  {
    var w := Deadline(s, sessions, maxSessions) - now + 1;
    if IsLive(s) && w > 0 && w < wait then w else wait
  }

  datatype Pass = Pass(list: seq<Session>, wait: int, closed: seq<int>)

  /** Every session's check, with one clock value; oks[i] answers the tun write of session i. */
  function Outcomes(list: seq<Session>, now: int, sessions: int, maxSessions: int, oks: seq<bool>): (r: seq<Outcome>)
    requires maxSessions > 0 && |oks| == |list|
    ensures |r| == |list|
    ensures forall i | 0 <= i < |r| :: r[i] == CheckOne(list[i], now, sessions, maxSessions, oks[i])
  {
    seq(|list|, i requires 0 <= i < |list| => CheckOne(list[i], now, sessions, maxSessions, oks[i]))
  }

  /** What is left in the list. */
  function Survivors(outs: seq<Outcome>): seq<Session> {
    if outs == [] then [] else (if outs[0].del then [] else [outs[0].session]) + Survivors(outs[1..])
  }

  /** All close() calls of the pass. */
  function AllCloses(outs: seq<Outcome>): seq<int> {
    if outs == [] then [] else outs[0].closed + AllCloses(outs[1..])
  }

  /** How long epoll may wait. */
  function Wait(outs: seq<Outcome>, wait: int, now: int, sessions: int, maxSessions: int): int
    requires maxSessions > 0
  {
    if outs == [] then wait
    else
      var o := outs[0];
      Wait(outs[1..], if o.del then wait else Tighten(wait, o.session, now, sessions, maxSessions),
           now, sessions, maxSessions)
  }

  /** The check loop of handle_events. */
  function CheckPass(list: seq<Session>, now: int, sessions: int, maxSessions: int, oks: seq<bool>): Pass
    requires maxSessions > 0 && |oks| == |list|
  {
    var outs := Outcomes(list, now, sessions, maxSessions, oks);
    Pass(Survivors(outs), Wait(outs, EPOLL_TIMEOUT, now, sessions, maxSessions), AllCloses(outs))
  }

  /** The positions whose check returned 0, in order. */
  function Kept(outs: seq<Outcome>, from: nat): (k: seq<nat>)
    requires from <= |outs|
    ensures forall i | 0 <= i < |k| :: from <= k[i] < |outs| && !outs[k[i]].del
    ensures forall i, j | 0 <= i < j < |k| :: k[i] < k[j]
    ensures forall p | from <= p < |outs| && !outs[p].del :: p in k
    decreases |outs| - from
  {
    if from == |outs| then []
    else
      var rest := Kept(outs, from + 1);
      if outs[from].del then rest else [from] + rest
  }

  /** The sessions at the given positions. */
  function Pick(outs: seq<Outcome>, k: seq<nat>): (l: seq<Session>)
    requires forall i | 0 <= i < |k| :: k[i] < |outs|
    ensures |l| == |k| && forall i | 0 <= i < |k| :: l[i] == outs[k[i]].session
  {
    if k == [] then [] else [outs[k[0]].session] + Pick(outs, k[1..])
  }

  lemma {:induction false} SurvivorsAreKept(outs: seq<Outcome>, from: nat)
    requires from <= |outs|
    ensures Survivors(outs[from..]) == Pick(outs, Kept(outs, from))
    decreases |outs| - from
  {
    if from == |outs| {
    } else {
      var rest := Kept(outs, from + 1);
      assert outs[from..][1..] == outs[from + 1..] && outs[from..][0] == outs[from];
      SurvivorsAreKept(outs, from + 1);
      assert ([from] + rest)[1..] == rest;
    }
  }

  /** The pass leaves exactly the sessions whose check returned 0, each as checked, in their order. */
  lemma PassKeepsSurvivors(list: seq<Session>, now: int, sessions: int, maxSessions: int, oks: seq<bool>)
    requires maxSessions > 0 && |oks| == |list|
    ensures var outs := Outcomes(list, now, sessions, maxSessions, oks);
            var p := CheckPass(list, now, sessions, maxSessions, oks);
            |p.list| == |Kept(outs, 0)| && forall i | 0 <= i < |p.list| :: p.list[i] == outs[Kept(outs, 0)[i]].session
  {
    var outs := Outcomes(list, now, sessions, maxSessions, oks);
    assert outs[0..] == outs;
    SurvivorsAreKept(outs, 0);
  }

  /**
    The chosen wait is the smaller of the given bound and the time until the
    first surviving live session becomes expirable.
  */
  lemma {:induction false} WaitIsEarliest(outs: seq<Outcome>, wait: int, now: int, sessions: int, maxSessions: int)
    requires maxSessions > 0 && wait > 0
    requires forall o | o in outs :: !o.del && IsLive(o.session) ==> now <= Deadline(o.session, sessions, maxSessions)
    ensures var w := Wait(outs, wait, now, sessions, maxSessions);
            var list := Survivors(outs);
            && 0 < w <= wait
            && (forall s | s in list && IsLive(s) :: now + w <= Deadline(s, sessions, maxSessions) + 1)
            && (w < wait ==> exists s :: s in list && IsLive(s) && now + w == Deadline(s, sessions, maxSessions) + 1)
  {
    if outs == [] {
    } else {
      var o := outs[0];
      var w := if o.del then wait else Tighten(wait, o.session, now, sessions, maxSessions);
      WaitIsEarliest(outs[1..], w, now, sessions, maxSessions);
      var final := Wait(outs, wait, now, sessions, maxSessions);
      forall x | x in Survivors(outs) && IsLive(x) ensures now + final <= Deadline(x, sessions, maxSessions) + 1 {
        if x !in Survivors(outs[1..]) {
          assert x == o.session && !o.del;
        }
      }
      if final < wait {
        if final < w {
          var x :| x in Survivors(outs[1..]) && IsLive(x) && now + final == Deadline(x, sessions, maxSessions) + 1;
          assert x in Survivors(outs);
        } else {
          assert !o.del && o.session in Survivors(outs);
        }
      }
    }
  }

  /**
    No oversleeping, no early wake-up: while the loop waits no surviving session
    is past its deadline, and when a session cut the wait short, it is expirable
    exactly when the wait ends.
  */
  lemma SleepIsExact(list: seq<Session>, now: int, sessions: int, maxSessions: int, oks: seq<bool>)
    requires maxSessions > 0 && |oks| == |list|
    ensures var p := CheckPass(list, now, sessions, maxSessions, oks);
            && 0 < p.wait <= EPOLL_TIMEOUT
            && (forall s | s in p.list && IsLive(s) :: !Expirable(s, now + p.wait - 1, sessions, maxSessions))
            && (p.wait < EPOLL_TIMEOUT ==>
                  exists s :: s in p.list && IsLive(s) && Expirable(s, now + p.wait, sessions, maxSessions))
  {
    var outs := Outcomes(list, now, sessions, maxSessions, oks);
    forall o | o in outs ensures !o.del && IsLive(o.session) ==> now <= Deadline(o.session, sessions, maxSessions) {
      var i :| 0 <= i < |outs| && outs[i] == o;
      LiveAfterCheck(list[i], now, sessions, maxSessions, oks[i]);
    }
    WaitIsEarliest(outs, EPOLL_TIMEOUT, now, sessions, maxSessions);
  }
}
