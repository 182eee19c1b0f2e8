/**
  What the NAT's table holds after a run, read off the packets, replies and
  lookups: when a session is there, when it was last used and how much went out
  on it; and with that, which packets of either direction are written.
*/
module NatRuns {
  import opened Words
  import opened Layout
  import opened NatPacket
  import opened Nat

  const MINUTE := 60_000_000_000

  // ---------- what an event means for a port ----------

  /** A packet of the app. */
  predicate GoesOut(c: Config, e: Event)
    requires Possible(e)
  {
    e.Packet? && FromApp(c, e.bytes)
  }

  predicate Sends(c: Config, e: Event, p: u16)
    requires Possible(e)
  {
    GoesOut(c, e) && SourcePort(e.bytes) == p
  }

  /** A packet from the port, a reply to it, or a lookup of it. */
  predicate Uses(c: Config, e: Event, p: u16)
    requires Possible(e)
  {
    match e
    case Packet(b, _, _) =>
      (FromApp(c, b) && SourcePort(b) == p) || (FromServer(c, b) && DestinationPort(b) == p)
    case Accept(port, _) => port == p
  }

  /** Where a packet is bound. */
  function RemoteEnd(e: Event): (u32, u16)
    requires Possible(e) && e.Packet?
  {
    (DestinationIp(e.bytes), DestinationPort(e.bytes))
  }

  lemma Earlier(es: seq<Event>)
    requires es != [] && AllPossible(es)
    ensures Possible(es[|es| - 1]) && AllPossible(es[..|es| - 1])
  {
    assert forall x | x in es[..|es| - 1] :: x in es;
  }

  // ---------- what a run means for a port ----------

  /** When the port was last used. */
  function LastUse(c: Config, es: seq<Event>, p: u16): Option<int>
    requires AllPossible(es)
  {
    if es == [] then None
    else
      Earlier(es);
      if Uses(c, es[|es| - 1], p) then Some(es[|es| - 1].now) else LastUse(c, es[..|es| - 1], p)
  }

  /** The packet e continues the session of its port. */
  predicate Continues(c: Config, es: seq<Event>, e: Event)
    requires AllPossible(es) && Possible(e) && GoesOut(c, e)
    decreases |es|, 1
  {
    Present(c, es, SourcePort(e.bytes)) && LastOut(c, es, SourcePort(e.bytes)) == Some(RemoteEnd(e))
  }

  /**
    The port has a session: it sent a packet, and no packet that opened a session
    in a full table came more than a minute after the port's last use since.
  */
  predicate Present(c: Config, es: seq<Event>, p: u16)
    requires AllPossible(es)
    decreases |es|, 0
  {
    if es == [] then false
    else
      Earlier(es);
      var e, before := es[|es| - 1], es[..|es| - 1];
      if Sends(c, e, p) then true
      else
        && Present(c, before, p)
        && (GoesOut(c, e) && !Continues(c, before, e) && |Run(c, before)| > 60 && LastUse(c, before, p).Some?
            ==> e.now - LastUse(c, before, p).value <= MINUTE)
  }

  /** How many packets went out in the port's session, the dropped one included. */
  function Sent(c: Config, es: seq<Event>, p: u16): nat
    requires AllPossible(es)
  {
    if es == [] then 0
    else
      Earlier(es);
      var e, before := es[|es| - 1], es[..|es| - 1];
      if Sends(c, e, p) then 1 + (if Continues(c, before, e) then Sent(c, before, p) else 0) else Sent(c, before, p)
  }

  /** And how many bytes of data they held. */
  function Data(c: Config, es: seq<Event>, p: u16): int
    requires AllPossible(es)
  {
    if es == [] then 0
    else
      Earlier(es);
      var e, before := es[|es| - 1], es[..|es| - 1];
      if Sends(c, e, p) then DataSize(e.bytes) + (if Continues(c, before, e) then Data(c, before, p) else 0)
      else Data(c, before, p)
  }

  // ---------- the table holds it ----------

  /** What one event does to the entry of a port. */
  lemma StepGet(c: Config, a: seq<Entry>, e: Event, p: u16)
    requires Sorted(a) && Possible(e)
    ensures var o, n := Get(a, p), Get(Step(c, a, e), p);
            if GoesOut(c, e) && SourcePort(e.bytes) == p then
              && n.Some?
              && var s := Continued(o, DestinationIp(e.bytes), DestinationPort(e.bytes), e.now);
                 && n.value.remoteIp == DestinationIp(e.bytes) && n.value.remotePort == DestinationPort(e.bytes)
                 && n.value.packetSent == s.packetSent + 1 && n.value.lastNanoTime == e.now
                 && n.value.bytesSent
                 == s.bytesSent + if Receive(c, a, e.bytes, e.size, e.now).1.Written? then DataSize(e.bytes) else 0
            else if GoesOut(c, e) then
              var q := Get(a, SourcePort(e.bytes));
              n == if Remembers(q, DestinationIp(e.bytes), DestinationPort(e.bytes)) then o else Swept(o, |a|, e.now)
            else if Uses(c, e, p) then
              n == match o case None => None case Some(s) => Some(s.(lastNanoTime := e.now))
            else n == o
  {
    hide Send, DataSize, SourcePort, DestinationPort, DestinationIp, SourceIp, RewriteIn, Put, Outbound, Forwarded;
    if e.Packet? && FromApp(c, e.bytes) {
      OutboundGet(a, e.bytes, e.now, p);
      ForwardedGet(c, Outbound(a, e.bytes, e.now), e.bytes, e.size, e.now, p);
    } else if e.Packet? {
      TouchGet(a, DestinationPort(e.bytes), e.now, p);
    } else {
      TouchGet(a, e.port, e.now, p);
    }
  }

  /** A session of the table: there, for the last remote end, with its last use and its packets. */
  ghost predicate Shows(c: Config, es: seq<Event>, p: u16)
    requires AllPossible(es)
  {
    var o := Get(Run(c, es), p);
    && (o.Some? <==> Present(c, es, p))
    && (o.Some? ==>
          && LastUse(c, es, p) == Some(o.value.lastNanoTime)
          && LastOut(c, es, p) == Some((o.value.remoteIp, o.value.remotePort))
          && o.value.packetSent == Sent(c, es, p))
  }

  /** What the last event adds to a run. */
  lemma Unfold(c: Config, es: seq<Event>, p: u16)
    requires es != [] && AllPossible(es)
    ensures var e, before := es[|es| - 1], es[..|es| - 1];
            && Possible(e) && AllPossible(before)
            && LastUse(c, es, p) == (if Uses(c, e, p) then Some(e.now) else LastUse(c, before, p))
            && LastOut(c, es, p) == (if Sends(c, e, p) then Some(RemoteEnd(e)) else LastOut(c, before, p))
            && Sent(c, es, p) == (if !Sends(c, e, p) then Sent(c, before, p)
                                  else if Continues(c, before, e) then 1 + Sent(c, before, p) else 1)
            && (Present(c, es, p) <==>
                  Sends(c, e, p)
                  || (Present(c, before, p)
                      && (GoesOut(c, e) && !Continues(c, before, e) && |Run(c, before)| > 60
                          && LastUse(c, before, p).Some?
                          ==> e.now - LastUse(c, before, p).value <= MINUTE)))
  {
    Earlier(es);
    hide Run, SourcePort, DestinationPort, DestinationIp, SourceIp;
  }

  lemma RunSplit(c: Config, es: seq<Event>)
    requires es != [] && AllPossible(es)
    ensures Possible(es[|es| - 1]) && AllPossible(es[..|es| - 1])
    ensures Run(c, es) == Step(c, Run(c, es[..|es| - 1]), es[|es| - 1])
  {
    Earlier(es);
  }

  /**
    Over every run the table shows exactly what the packets, replies and lookups
    say: which ports have a session, when it was last used, and how many packets
    went out on it.
  */
  lemma {:induction false} TableShows(c: Config, es: seq<Event>, p: u16)
    requires AllPossible(es)
    ensures Sorted(Run(c, es)) && Shows(c, es, p)
    decreases |es|
  {
    RunRemembers(c, es, p);
    if es == [] {
    } else {
      RunSplit(c, es);
      var e, before := es[|es| - 1], es[..|es| - 1];
      TableShows(c, before, p);
      if GoesOut(c, e) {
        TableShows(c, before, SourcePort(e.bytes));
      }
      StepGet(c, Run(c, before), e, p);
      Unfold(c, es, p);
      hide Step, Run, Get, Sorted, SourcePort, DestinationPort, DestinationIp, SourceIp,
           Present, Sent, LastUse, LastOut;
    }
  }

  /** Packets as the app sends them. */
  predicate Proper(e: Event) {
    e.Packet? ==> WellFormed(e.bytes) && TotalLength(e.bytes) <= e.size <= |e.bytes|
  }

  /** A proper packet that is not written held no data. */
  lemma OnlyBareDropped(c: Config, a: seq<Entry>, e: Event)
    requires Sorted(a) && Proper(e) && Possible(e) && GoesOut(c, e)
    ensures !Receive(c, a, e.bytes, e.size, e.now).1.Written? ==> DataSize(e.bytes) == 0
  {
    OutboundGet(a, e.bytes, e.now, SourcePort(e.bytes));
    RewriteOutFields(e.bytes, c.localIp, c.proxyPort);
    SealedFields(RewriteOut(e.bytes, c.localIp, c.proxyPort));
  }

  /** And the bytes counted are the data that went out in the session. */
  lemma {:induction false} TableCountsData(c: Config, es: seq<Event>, p: u16)
    requires AllPossible(es) && forall e | e in es :: Proper(e)
    ensures Present(c, es, p) ==> Get(Run(c, es), p).Some? && Get(Run(c, es), p).value.bytesSent == Data(c, es, p)
    decreases |es|
  {
    if es == [] {
    } else {
      RunSplit(c, es);
      var e, before := es[|es| - 1], es[..|es| - 1];
      assert e in es && forall x | x in before :: x in es;
      TableCountsData(c, before, p);
      TableShows(c, before, p);
      if GoesOut(c, e) {
        TableShows(c, before, SourcePort(e.bytes));
        OnlyBareDropped(c, Run(c, before), e);
      }
      StepGet(c, Run(c, before), e, p);
      Unfold(c, es, p);
      hide Step, Run, Get, Sorted, Receive, Present, Sent, LastUse, LastOut, FromApp, SourcePort, DestinationPort,
           DestinationIp, SourceIp;
    }
  }

  // ---------- the main results ----------

  /** Over every run a reply reaches the app exactly when its port has a session. */
  lemma ReplyWrittenIff(c: Config, es: seq<Event>, b: seq<u8>, size: nat, now: int)
    requires AllPossible(es) && WellFormed(b) && TotalLength(b) <= size <= |b|
    requires b[9] == 6 && SourceIp(b) == c.localIp && SourcePort(b) == c.proxyPort
    ensures var r := Receive(c, Run(c, es), b, size, now).1;
            if Present(c, es, DestinationPort(b)) then r.Written? else r.Dropped?
  {
    var p := DestinationPort(b);
    TableShows(c, es, p);
    TouchGet(Run(c, es), p, now, p);
    if Get(Run(c, es), p).Some? {
      RewriteInFields(b, c.localIp, Get(Run(c, es), p).value.remotePort);
      SealedFields(RewriteIn(b, c.localIp, Get(Run(c, es), p).value.remotePort));
    }
  }

  /** What is not TCP, or not from this device, is left alone. */
  lemma OthersIgnored(c: Config, a: seq<Entry>, b: seq<u8>, size: nat, now: int)
    requires Buffer(b) && size <= |b|
    ensures Receive(c, a, b, size, now).1.Ignored? <==> b[9] != 6 || SourceIp(b) != c.localIp
    ensures b[9] != 6 || SourceIp(b) != c.localIp ==> Receive(c, a, b, size, now).0 == a
  {
    hide DataSize, RewriteIn, RewriteOut, TcpSealed, Outbound, Touch, Get, Put;
  }

  /** Every packet of the app after event i comes at most a minute after the port's last use. */
  predicate InTime(c: Config, es: seq<Event>, i: nat, p: u16)
    requires AllPossible(es)
  {
    forall j | i < j < |es| && Possible(es[j]) && GoesOut(c, es[j]) && AllPossible(es[..j]) ::
      LastUse(c, es[..j], p).Some? ==> es[j].now - LastUse(c, es[..j], p).value <= MINUTE
  }

  /** A session in use is never lost, however full the table. */
  lemma {:induction false} InTimeStays(c: Config, es: seq<Event>, i: nat, p: u16)
    requires AllPossible(es) && i < |es| && Possible(es[i]) && Sends(c, es[i], p) && InTime(c, es, i, p)
    ensures Present(c, es, p)
    decreases |es|
  {
    RunSplit(c, es);
    if i == |es| - 1 {
    } else {
      var before := es[..|es| - 1];
      assert before[i] == es[i];
      assert forall j | i < j < |before| :: es[..j] == before[..j] && es[j] == before[j];
      InTimeStays(c, before, i, p);
    }
  }

  /**
    Over every run a reply to a port that sent a packet, and whose last packet,
    reply or lookup is never more than a minute old when a packet of the app goes
    out, reaches the app.
  */
  lemma RecentReplyWritten(c: Config, es: seq<Event>, i: nat, b: seq<u8>, size: nat, now: int)
    requires AllPossible(es) && WellFormed(b) && TotalLength(b) <= size <= |b| && FromServer(c, b)
    requires i < |es| && Possible(es[i]) && Sends(c, es[i], DestinationPort(b)) && InTime(c, es, i, DestinationPort(b))
    ensures Receive(c, Run(c, es), b, size, now).1.Written?
  {
    InTimeStays(c, es, i, DestinationPort(b));
    ReplyWrittenIff(c, es, b, size, now);
  }

  /**
    Over every run a packet of the app is dropped exactly if it holds no data and
    is the second of its session; every other one is written.
  */
  lemma SecondBareDropped(c: Config, es: seq<Event>, b: seq<u8>, size: nat, now: int)
    requires AllPossible(es) && WellFormed(b) && TotalLength(b) <= size <= |b|
    requires b[9] == 6 && SourceIp(b) == c.localIp && SourcePort(b) != c.proxyPort
    ensures GoesOut(c, Packet(b, size, now))
    ensures var r := Receive(c, Run(c, es), b, size, now).1;
            if DataSize(b) == 0 && Continues(c, es, Packet(b, size, now)) && Sent(c, es, SourcePort(b)) == 1
            then r.Dropped? else r.Written?
  {
    var p := SourcePort(b);
    TableShows(c, es, p);
    OutboundGet(Run(c, es), b, now, p);
    OutboundForwarded(c, es, b, size, now);
    hide Receive, DataSize, DestinationIp, DestinationPort, SourcePort, Outbound, Run, TotalLength, WellFormed;
  }
}
