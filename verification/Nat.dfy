/**
  The NAT of the Java engine: sessions keyed by local port, and the rewriting of
  every TCP packet between the app and the local proxy server.
*/
module Nat {
  import opened Words
  import opened Layout
  import opened Checksum
  import opened NatPacket

  const MAX_SESSION_COUNT := 60
  const SESSION_TIMEOUT_NS := 60_000_000_000

  /** NatSession, without the host name. */
  datatype NatSession = NatSession(remoteIp: u32, remotePort: u16, bytesSent: int, packetSent: int, lastNanoTime: int)

  /** A SparseArray: entries in strictly increasing key order. */
  datatype Entry = Entry(key: u16, session: NatSession)

  predicate Sorted(a: seq<Entry>) {
    forall i, j | 0 <= i < j < |a| :: a[i].key < a[j].key
  }

  function Get(a: seq<Entry>, key: u16): Option<NatSession> {
    if a == [] then None else if a[0].key == key then Some(a[0].session) else Get(a[1..], key)
  }

  function Put(a: seq<Entry>, key: u16, s: NatSession): seq<Entry> {
    if a == [] || key < a[0].key then [Entry(key, s)] + a
    else if a[0].key == key then [Entry(key, s)] + a[1..]
    else [a[0]] + Put(a[1..], key, s)
  }

  lemma {:induction false} PutGet(a: seq<Entry>, key: u16, s: NatSession, k: u16)
    requires Sorted(a)
    ensures Sorted(Put(a, key, s))
    ensures Get(Put(a, key, s), k) == if k == key then Some(s) else Get(a, k)
  {
    PutSorted(a, key, s);
    if a == [] {
    } else if key < a[0].key {
      AbsentBelow(a, key);
    } else if a[0].key != key {
      PutGet(a[1..], key, s, k);
    }
  }

  lemma {:induction false} PutSorted(a: seq<Entry>, key: u16, s: NatSession)
    requires Sorted(a)
    ensures Sorted(Put(a, key, s))
    ensures forall e | e in Put(a, key, s) :: e.key == key || e in a
  {
    if a == [] || a[0].key >= key {
    } else {
      PutSorted(a[1..], key, s);
      var r := Put(a[1..], key, s);
      forall j | 0 <= j < |r| ensures a[0].key < r[j].key {
        assert r[j] in r;
        if r[j].key != key {
          var i :| 0 <= i < |a[1..]| && a[1..][i] == r[j];
          assert a[i + 1] == r[j];
        }
      }
    }
  }

  lemma {:induction false} AbsentBelow(a: seq<Entry>, key: u16)
    requires Sorted(a) && (a == [] || key < a[0].key)
    ensures Get(a, key) == None
  {
    if a == [] {
    } else {
      AbsentBelow(a[1..], key);
    }
  }

  // ---------- expiry ----------

  predicate Expired(s: NatSession, now: int) {
    now - s.lastNanoTime > SESSION_TIMEOUT_NS
  }

  /** clearExpiredSessions. */
  function Unexpired(a: seq<Entry>, now: int): seq<Entry> {
    if a == [] then []
    else if Expired(a[0].session, now) then Unexpired(a[1..], now)
    else [a[0]] + Unexpired(a[1..], now)
  }

  lemma {:induction false} UnexpiredSorted(a: seq<Entry>, now: int)
    requires Sorted(a)
    ensures Sorted(Unexpired(a, now))
    ensures forall e | e in Unexpired(a, now) :: e in a
  {
    if a == [] {
    } else {
      UnexpiredSorted(a[1..], now);
      var r := Unexpired(a[1..], now);
      forall j | 0 <= j < |r| ensures a[0].key < r[j].key {
        assert r[j] in a[1..];
        var i :| 0 <= i < |a[1..]| && a[1..][i] == r[j];
        assert a[i + 1] == r[j];
      }
    }
  }

  /** The sweep keeps the entries used in the last minute, and those alone. */
  lemma {:induction false} UnexpiredGet(a: seq<Entry>, now: int, k: u16)
    requires Sorted(a)
    ensures Sorted(Unexpired(a, now))
    ensures forall e | e in Unexpired(a, now) :: e in a
    ensures Get(Unexpired(a, now), k) ==
            match Get(a, k)
            case None => None
            case Some(s) => if now - s.lastNanoTime <= 60_000_000_000 then Some(s) else None
  {
    UnexpiredSorted(a, now);
    if a == [] {
    } else {
      UnexpiredGet(a[1..], now, k);
      if a[0].key == k {
        AbsentBelow(a[1..], k);
      }
    }
  }

  // ---------- one packet ----------

  /** What happens to a packet; Written sends the first `size` bytes of the buffer. */
  datatype Outcome = Ignored | Dropped | Written(buffer: seq<u8>, size: nat) | Crashed

  /** getSession refreshes the time stamp. */
  function Touch(a: seq<Entry>, key: u16, now: int): seq<Entry> {
    match Get(a, key)
    case None => a
    case Some(s) => Put(a, key, s.(lastNanoTime := now))
  }

  /** createSession: expired entries are cleared first when there are more than 60. */
  function Create(a: seq<Entry>, key: u16, ip: u32, port: u16, now: int): seq<Entry> {
    Put(if |a| > MAX_SESSION_COUNT then Unexpired(a, now) else a, key, NatSession(ip, port, 0, 0, now))
  }

  /** The session an outbound packet uses: the old one if it has the same remote end, otherwise a new one. */
  function Outbound(a: seq<Entry>, b: seq<u8>, now: int): seq<Entry>
    requires Buffer(b)
  {
    var key := SourcePort(b);
    var t := Touch(a, key, now);
    match Get(t, key)
    case Some(s) =>
      if s.remoteIp == DestinationIp(b) && s.remotePort == DestinationPort(b) then t
      else Create(t, key, DestinationIp(b), DestinationPort(b), now)
    case None => Create(t, key, DestinationIp(b), DestinationPort(b), now)
  }

  /** To the local server: source is the remote end, destination the server. */
  function RewriteOut(b: seq<u8>, localIp: u32, proxyPort: u16): seq<u8>
    requires Buffer(b)
  {
    var b1 := PutBe32(b, IP_SOURCE, DestinationIp(b));
    var b2 := PutBe32(b1, IP_DESTINATION, localIp);
    PutBe(b2, HeaderLength(b) + 2, proxyPort)
  }

  /** To the app: source is the remote end, destination the app. */
  function RewriteIn(b: seq<u8>, localIp: u32, remotePort: u16): seq<u8>
    requires Buffer(b)
  {
    var b1 := PutBe32(b, IP_SOURCE, DestinationIp(b));
    var b2 := PutBe(b1, HeaderLength(b), remotePort);
    PutBe32(b2, IP_DESTINATION, localIp)
  }

  function Send(b: seq<u8>, size: nat): Outcome
    requires Buffer(b) && size <= |b|
  {
    match TcpSealed(b)
    case None => Crashed
    case Some(r) => Written(r, size)
  }

  datatype Config = Config(localIp: u32, proxyPort: u16)

  predicate FromServer(c: Config, b: seq<u8>)
    requires Buffer(b)
  {
    b[9] == TCP && SourceIp(b) == c.localIp && SourcePort(b) == c.proxyPort
  }

  predicate FromApp(c: Config, b: seq<u8>)
    requires Buffer(b)
  {
    b[9] == TCP && SourceIp(b) == c.localIp && SourcePort(b) != c.proxyPort
  }

  /** onIPPacketReceived: b is the whole packet buffer, of which size bytes were read. */
  function Receive(c: Config, a: seq<Entry>, b: seq<u8>, size: nat, now: int): (seq<Entry>, Outcome)
    requires Buffer(b) && size <= |b|
  {
    if FromServer(c, b) then
      var t := Touch(a, DestinationPort(b), now);
      match Get(t, DestinationPort(b))
      case None => (t, Dropped)
      case Some(s) => (t, Send(RewriteIn(b, c.localIp, s.remotePort), size))
    else if FromApp(c, b) then Forwarded(c, Outbound(a, b, now), b, size, now)
    else (a, Ignored)
  }

  /** The rest of an outbound packet, once its session stands. */
  function Forwarded(c: Config, t: seq<Entry>, b: seq<u8>, size: nat, now: int): (seq<Entry>, Outcome)
    requires Buffer(b) && size <= |b|
  {
    match Get(t, SourcePort(b))
    case None => (t, Dropped)
    case Some(s) =>
      var r := if s.packetSent + 1 == 2 && DataSize(b) == 0 then Dropped
               else Send(RewriteOut(b, c.localIp, c.proxyPort), size);
      (Put(t, SourcePort(b), Account(s, now, if r.Written? then DataSize(b) else 0)), r)
  }

  /** A session's counters after an outbound packet. */
  function Account(s: NatSession, now: int, bytes: int): NatSession {
    s.(lastNanoTime := now, packetSent := s.packetSent + 1, bytesSent := s.bytesSent + bytes)
  }

  // ---------- runs ----------

  datatype Event =
    | Packet(bytes: seq<u8>, size: nat, now: int)
    | Accept(port: u16, now: int)  // the local server looks a session up

  predicate Possible(e: Event) {
    e.Packet? ==> Buffer(e.bytes) && e.size <= |e.bytes|
  }

  predicate AllPossible(es: seq<Event>) {
    forall e | e in es :: Possible(e)
  }

  function Step(c: Config, a: seq<Entry>, e: Event): seq<Entry>
    requires Possible(e)
  {
    match e
    case Packet(b, size, now) => Receive(c, a, b, size, now).0
    case Accept(port, now) => Touch(a, port, now)
  }

  /** The sessions after a run from the empty table. */
  function Run(c: Config, es: seq<Event>): seq<Entry>
    requires AllPossible(es)
  {
    if es == [] then [] else
      assert forall e | e in es[..|es| - 1] :: e in es;
      Step(c, Run(c, es[..|es| - 1]), es[|es| - 1])
  }

  /** Where the most recent outbound packet from a port went: read off the packets alone. */
  function LastOut(c: Config, es: seq<Event>, port: u16): Option<(u32, u16)>
    requires AllPossible(es)
  {
    if es == [] then None
    else
      var e := es[|es| - 1];
      assert Possible(e) && forall x | x in es[..|es| - 1] :: x in es;
      if e.Packet? && FromApp(c, e.bytes) && SourcePort(e.bytes) == port then
        Some((DestinationIp(e.bytes), DestinationPort(e.bytes)))
      else LastOut(c, es[..|es| - 1], port)
  }

  // ---------- the table remembers the last outbound packet ----------

  lemma TouchGet(a: seq<Entry>, key: u16, now: int, k: u16)
    requires Sorted(a)
    ensures Sorted(Touch(a, key, now))
    ensures Get(Touch(a, key, now), k) ==
            match Get(a, k) case None => None case Some(s) => Some(if k == key then s.(lastNanoTime := now) else s)
  {
    if Get(a, key).Some? {
      PutGet(a, key, Get(a, key).value.(lastNanoTime := now), k);
    }
  }

  /** The entry is for the given remote end. */
  predicate Remembers(o: Option<NatSession>, ip: u32, port: u16) {
    o.Some? && o.value.remoteIp == ip && o.value.remotePort == port
  }

  lemma {:induction false} PutSize(a: seq<Entry>, key: u16, s: NatSession)
    requires Sorted(a) && Get(a, key).Some?
    ensures |Put(a, key, s)| == |a|
  {
    if key < a[0].key {
      AbsentBelow(a, key);
    } else if a[0].key != key {
      PutSize(a[1..], key, s);
    }
  }

  lemma TouchSize(a: seq<Entry>, key: u16, now: int)
    requires Sorted(a)
    ensures |Touch(a, key, now)| == |a|
  {
    if Get(a, key).Some? {
      PutSize(a, key, Get(a, key).value.(lastNanoTime := now));
    }
  }

  /** What is left of an entry at a sweep in a table of n entries. */
  function Swept(o: Option<NatSession>, n: nat, now: int): Option<NatSession> {
    if o.Some? && n > 60 && now - o.value.lastNanoTime > 60_000_000_000 then None else o
  }

  /** A new session starts at zero; in a full table it costs the sessions idle for a minute, and never another. */
  lemma CreateGet(a: seq<Entry>, key: u16, ip: u32, port: u16, now: int, k: u16)
    requires Sorted(a)
    ensures Sorted(Create(a, key, ip, port, now))
    ensures Get(Create(a, key, ip, port, now), k) ==
            if k == key then Some(NatSession(ip, port, 0, 0, now)) else Swept(Get(a, k), |a|, now)
  {
    UnexpiredGet(a, now, k);
    PutGet(if |a| > MAX_SESSION_COUNT then Unexpired(a, now) else a, key, NatSession(ip, port, 0, 0, now), k);
  }

  /** The session an outbound packet finds or makes. */
  function Continued(o: Option<NatSession>, ip: u32, port: u16, now: int): NatSession {
    if Remembers(o, ip, port) then o.value.(lastNanoTime := now) else NatSession(ip, port, 0, 0, now)
  }

  lemma OutboundGet(a: seq<Entry>, b: seq<u8>, now: int, k: u16)
    requires Sorted(a) && Buffer(b)
    ensures Sorted(Outbound(a, b, now))
    ensures k == SourcePort(b) ==>
              Get(Outbound(a, b, now), k) == Some(Continued(Get(a, k), DestinationIp(b), DestinationPort(b), now))
    ensures k != SourcePort(b) ==>
              Get(Outbound(a, b, now), k) ==
              if Remembers(Get(a, SourcePort(b)), DestinationIp(b), DestinationPort(b)) then Get(a, k)
              else Swept(Get(a, k), |a|, now)
  {
    TouchGet(a, SourcePort(b), now, k);
    TouchGet(a, SourcePort(b), now, SourcePort(b));
    TouchSize(a, SourcePort(b), now);
    CreateGet(Touch(a, SourcePort(b), now), SourcePort(b), DestinationIp(b), DestinationPort(b), now, k);
  }

  lemma ForwardedGet(c: Config, t: seq<Entry>, b: seq<u8>, size: nat, now: int, k: u16)
    requires Sorted(t) && Buffer(b) && size <= |b|
    ensures var r := Forwarded(c, t, b, size, now);
            && Sorted(r.0)
            && Get(r.0, k) ==
               if k == SourcePort(b) && Get(t, k).Some? then
                 var s := Get(t, k).value;
                 Some(NatSession(s.remoteIp, s.remotePort, s.bytesSent + (if r.1.Written? then DataSize(b) else 0),
                                 s.packetSent + 1, now))
               else Get(t, k)
  {
    hide Put, Get, Send, RewriteOut, SourcePort, DataSize, Sorted;
    if Get(t, SourcePort(b)).Some? {
      var r := Forwarded(c, t, b, size, now).1;
      PutGet(t, SourcePort(b), Account(Get(t, SourcePort(b)).value, now, if r.Written? then DataSize(b) else 0), k);
    }
  }

  /** In every run an entry is for the remote end of the most recent outbound packet from its port. */
  lemma {:induction false} RunRemembers(c: Config, es: seq<Event>, k: u16)
    requires AllPossible(es)
    ensures Sorted(Run(c, es))
    ensures Get(Run(c, es), k).Some? ==>
              LastOut(c, es, k) == Some((Get(Run(c, es), k).value.remoteIp, Get(Run(c, es), k).value.remotePort))
  {
    if es == [] {
    } else {
      var e := es[|es| - 1];
      var before := es[..|es| - 1];
      assert forall x | x in before :: x in es;
      assert Possible(e);
      RunRemembers(c, before, k);
      var a := Run(c, before);
      if e.Packet? && FromApp(c, e.bytes) {
        OutboundGet(a, e.bytes, e.now, k);
        ForwardedGet(c, Outbound(a, e.bytes, e.now), e.bytes, e.size, e.now, k);
      } else {
        TouchGet(a, if e.Packet? then DestinationPort(e.bytes) else e.port, e.now, k);
      }
    }
  }

  // ---------- the rewritten headers ----------

  /** Only these bytes of a packet may change. */
  predicate Rewritable(hl: nat, k: nat) {
    10 <= k < 20 || hl <= k < hl + 4 || k == hl + 16 || k == hl + 17
  }

  ghost predicate OnlyHeaders(b: seq<u8>, r: seq<u8>)
    requires Buffer(b)
  {
    |r| == |b| && forall k | 0 <= k < |b| && !Rewritable(HeaderLength(b), k) :: r[k] == b[k]
  }

  lemma RewriteInFields(b: seq<u8>, localIp: u32, remotePort: u16)
    requires WellFormed(b)
    ensures var r := RewriteIn(b, localIp, remotePort);
            && |r| == |b| && WellFormed(r) && HeaderLength(r) == HeaderLength(b)
            && SourceIp(r) == DestinationIp(b) && SourcePort(r) == remotePort
            && DestinationIp(r) == localIp && DestinationPort(r) == DestinationPort(b)
            && OnlyHeaders(b, r)
  {
    var b1 := PutBe32(b, IP_SOURCE, DestinationIp(b));
    IntRoundTrip(b, IP_SOURCE, DestinationIp(b));
    var b2 := PutBe(b1, HeaderLength(b), remotePort);
    ShortRoundTrip(b1, HeaderLength(b), remotePort);
    IntRoundTrip(b2, IP_DESTINATION, localIp);
  }

  lemma RewriteOutFields(b: seq<u8>, localIp: u32, proxyPort: u16)
    requires WellFormed(b)
    ensures var r := RewriteOut(b, localIp, proxyPort);
            && |r| == |b| && WellFormed(r) && HeaderLength(r) == HeaderLength(b)
            && SourceIp(r) == DestinationIp(b) && SourcePort(r) == SourcePort(b)
            && DestinationIp(r) == localIp && DestinationPort(r) == proxyPort
            && OnlyHeaders(b, r)
  {
    var b1 := PutBe32(b, IP_SOURCE, DestinationIp(b));
    IntRoundTrip(b, IP_SOURCE, DestinationIp(b));
    var b2 := PutBe32(b1, IP_DESTINATION, localIp);
    IntRoundTrip(b1, IP_DESTINATION, localIp);
    ShortRoundTrip(b2, HeaderLength(b) + 2, proxyPort);
  }

  /** Sealing keeps all four fields. */
  lemma SealedFields(b: seq<u8>)
    requires WellFormed(b)
    ensures TcpSealed(b).Some?
    ensures var r := TcpSealed(b).value;
            && WellFormed(r) && ChecksumsValid(r) && |r| == |b|
            && SourceIp(r) == SourceIp(b) && DestinationIp(r) == DestinationIp(b)
            && SourcePort(r) == SourcePort(b) && DestinationPort(r) == DestinationPort(b)
            && HeaderLength(r) == HeaderLength(b)
            && OnlyHeaders(b, r)
  {
    SealValid(b);
  }

  // ---------- the main results ----------

  /** The four fields of a packet that leaves the service. */
  predicate Goes(r: seq<u8>, fromIp: u32, fromPort: u16, toIp: u32, toPort: u16)
    requires Buffer(r)
  {
    SourceIp(r) == fromIp && SourcePort(r) == fromPort && DestinationIp(r) == toIp && DestinationPort(r) == toPort
  }

  /**
    The way back. In every run a reply to local port p is dropped, or sent to
    the app at p with valid checksums and the remote port of the most recent
    outbound packet from p. It is the exact reverse of that packet if and only
    if the reply carries that packet's remote address: the address is taken
    from the reply, not from the session.
  */
  lemma ReplyReversed(c: Config, es: seq<Event>, b: seq<u8>, size: nat, now: int)
    requires AllPossible(es) && WellFormed(b) && TotalLength(b) <= size <= |b| && FromServer(c, b)
    ensures var r := Receive(c, Run(c, es), b, size, now).1;
            var p := DestinationPort(b);
            && (r.Dropped? || r.Written?)
            && (r.Written? ==>
                  && WellFormed(r.buffer) && ChecksumsValid(r.buffer) && r.size == size
                  && LastOut(c, es, p).Some?
                  && var (ip, port) := LastOut(c, es, p).value;
                     && Goes(r.buffer, DestinationIp(b), port, c.localIp, p)
                     && (Goes(r.buffer, ip, port, c.localIp, p) <==> DestinationIp(b) == ip)
                     && OnlyHeaders(b, r.buffer))
  {
    var p := DestinationPort(b);
    var a := Run(c, es);
    RunRemembers(c, es, p);
    TouchGet(a, p, now, p);
    if Get(a, p).Some? {
      RewriteInFields(b, c.localIp, Get(a, p).value.remotePort);
      SealedFields(RewriteIn(b, c.localIp, Get(a, p).value.remotePort));
    }
  }

  /**
    And it fails: whenever the app talks from one port to two remote ends in turn, a
    late reply of the first reaches the app as coming from the address of the first
    and the port of the second.
  */
  lemma LateReplyMixed(c: Config, es: seq<Event>, first: Event, second: Event, b: seq<u8>, size: nat, now: int)
    requires AllPossible(es) && first.Packet? && second.Packet? && Possible(first) && Possible(second)
    requires FromApp(c, first.bytes) && FromApp(c, second.bytes)
    requires WellFormed(b) && TotalLength(b) <= size <= |b| && FromServer(c, b)
    requires SourcePort(first.bytes) == SourcePort(second.bytes) == DestinationPort(b)
    requires DestinationIp(b) == DestinationIp(first.bytes) != DestinationIp(second.bytes)
    ensures AllPossible(es + [first] + [second])
    ensures var r := Receive(c, Run(c, es + [first] + [second]), b, size, now).1;
            var p := DestinationPort(b);
            && r.Written? && WellFormed(r.buffer)
            && Goes(r.buffer, DestinationIp(first.bytes), DestinationPort(second.bytes), c.localIp, p)
            && !Goes(r.buffer, DestinationIp(second.bytes), DestinationPort(second.bytes), c.localIp, p)
  {
    var all := es + [first] + [second];
    assert all[..|all| - 1] == es + [first] && all[|all| - 1] == second;
    var p := DestinationPort(b);
    var a := Run(c, es + [first]);
    RunRemembers(c, es + [first], p);
    OutboundGet(a, second.bytes, second.now, p);
    StillThere(c, Outbound(a, second.bytes, second.now), second.bytes, second.size, second.now);
    RunRemembers(c, all, p);
    TouchGet(Run(c, all), p, now, p);
    ReplyReversed(c, all, b, size, now);
  }

  /**
    The way out: every packet but a bare second one of its session reaches the
    local server, with valid checksums, as if from the remote end.
  */
  lemma OutboundForwarded(c: Config, es: seq<Event>, b: seq<u8>, size: nat, now: int)
    requires AllPossible(es) && WellFormed(b) && TotalLength(b) <= size <= |b| && FromApp(c, b)
    ensures Get(Outbound(Run(c, es), b, now), SourcePort(b)).Some?
    ensures var r := Receive(c, Run(c, es), b, size, now).1;
            && (if DataSize(b) == 0 && Get(Outbound(Run(c, es), b, now), SourcePort(b)).value.packetSent + 1 == 2
                then r.Dropped? else r.Written?)
            && (r.Written? ==>
                  && WellFormed(r.buffer) && ChecksumsValid(r.buffer) && r.size == size
                  && Goes(r.buffer, DestinationIp(b), SourcePort(b), c.localIp, c.proxyPort)
                  && OnlyHeaders(b, r.buffer))
  {
    RunRemembers(c, es, SourcePort(b));
    OutboundGet(Run(c, es), b, now, SourcePort(b));
    RewriteOutFields(b, c.localIp, c.proxyPort);
    SealedFields(RewriteOut(b, c.localIp, c.proxyPort));
  }

  /**
    The round trip: when the server answers the forwarded packet (to the address
    it saw, before anything else goes out from the port), the app sees the
    reverse of what it sent.
  */
  lemma RoundTrip(c: Config, es: seq<Event>, b: seq<u8>, size: nat, now: int,
                  reply: seq<u8>, replySize: nat, later: int)
    requires AllPossible(es) && WellFormed(b) && size <= |b| && FromApp(c, b)
    requires WellFormed(reply) && TotalLength(reply) <= replySize <= |reply| && FromServer(c, reply)
    requires DestinationIp(reply) == DestinationIp(b) && DestinationPort(reply) == SourcePort(b)
    ensures var all := es + [Packet(b, size, now)];
            && AllPossible(all)
            && var r := Receive(c, Run(c, all), reply, replySize, later).1;
               r.Written? && WellFormed(r.buffer) && ChecksumsValid(r.buffer)
               && Goes(r.buffer, DestinationIp(b), DestinationPort(b), SourceIp(b), SourcePort(b))
  {
    var e := Packet(b, size, now);
    var all := es + [e];
    assert all[..|all| - 1] == es && all[|all| - 1] == e;
    var p := SourcePort(b);
    RunRemembers(c, es, p);
    OutboundGet(Run(c, es), b, now, p);
    var t := Outbound(Run(c, es), b, now);
    StillThere(c, t, b, size, now);
    RunRemembers(c, all, p);
    TouchGet(Run(c, all), p, later, p);
    ReplyReversed(c, all, reply, replySize, later);
  }

  lemma StillThere(c: Config, t: seq<Entry>, b: seq<u8>, size: nat, now: int)
    requires Sorted(t) && Buffer(b) && size <= |b| && Get(t, SourcePort(b)).Some?
    ensures Get(Forwarded(c, t, b, size, now).0, SourcePort(b)).Some?
  {
    var r := Forwarded(c, t, b, size, now).1;
    var s := Account(Get(t, SourcePort(b)).value, now, if r.Written? then DataSize(b) else 0);
    PutGet(t, SourcePort(b), s, SourcePort(b));
  }
}
