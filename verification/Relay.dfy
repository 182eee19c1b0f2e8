/**
  The paired relay of Tunnel.java and HttpConnectTunnel.java: two channels that
  feed each other, with partial writes, a leftover buffer, selector interest as
  back-pressure, and the CONNECT handshake of the remote side.
*/
module Relay {
  import opened Words

  const BUFFER_SIZE := 20000

  datatype Kind = Raw | HttpConnect

  datatype Op = Connecting | Reading | Writing

  /**
    A channel's selection key. `armed` is the interest at the last select,
    for which the key may still be dispatched in this round. A cancelled key
    stays with the selector until the next select, and registering its channel
    before that throws.
  */
  datatype Key = Unregistered | Registered(interest: Op, armed: Option<Op>) | Cancelled

  /**
    One tunnel. `accepted` is what its channel took, `fed` what it was given to
    send, `got` what it read for its brother, `heard` what it read before the
    tunnel was established; the four are history.
  */
  datatype Side = Side(kind: Kind, disposed: bool, key: Key, remain: Option<seq<u8>>, established: bool,
                       connected: bool,
                       accepted: seq<u8>, fed: seq<u8>, got: seq<u8>, heard: seq<u8>)

  /** The answers of the outside world to one dispatch. */
  datatype Env = Env(scratch: seq<u8>,   // what GL_BUFFER held before
                     header: seq<nat>,   // channel.write results while the header part is sent
                     body: seq<nat>,     // channel.write results of the main write
                     ioError: bool)      // the last channel call throws

  datatype Result = Fine(me: Side, brother: Side) | Thrown(me: Side, brother: Side)

  datatype Setup = Setup(request: seq<u8>, isolate: bool)

  /** The tunnel is through: at once for a raw one, after the proxy's answer for CONNECT. */
  predicate IsTunnelEstablished(s: Side) {
    s.kind == Raw || s.established
  }

  function Left(s: Side): seq<u8> {
    if s.remain.Some? then s.remain.value else []
  }

  // ---------- channel operations ----------

  /** channel.register: sets the interest; None is the exception for a cancelled key. */
  function Register(s: Side, op: Op): Option<Side> {
    match s.key
    case Cancelled => None
    case Unregistered => Some(s.(key := Registered(op, None)))
    case Registered(_, armed) => Some(s.(key := Registered(op, armed)))
  }

  /** How many bytes the write loop gets rid of: it stops at the first call that takes nothing. */
  function Drain(data: seq<u8>, takes: seq<nat>): (n: nat)
    ensures n <= |data|
  {
    if data == [] || takes == [] || takes[0] == 0 then 0
    else
      var n := if takes[0] < |data| then takes[0] else |data|;
      n + Drain(data[n..], takes[1..])
  }

  function Take(s: Side, data: seq<u8>, n: nat): Side
    requires n <= |data|
  {
    s.(accepted := s.accepted + data[..n])
  }

  function Upper(c: u8): u8 {
    if 97 <= c <= 122 then c - 32 else c
  }

  /** "GET /" or "POST /", in any case. */
  predicate StartsRequest(data: seq<u8>) {
    || (|data| >= 5 && Upper(data[0]) == 71 && Upper(data[1]) == 69 && Upper(data[2]) == 84
        && data[3] == 32 && data[4] == 47)
    || (|data| >= 6 && Upper(data[0]) == 80 && Upper(data[1]) == 79 && Upper(data[2]) == 83 && Upper(data[3]) == 84
        && data[4] == 32 && data[5] == 47)
  }

  /** beforeSend: a CONNECT tunnel may send the first ten bytes of a request on their own. Returns how many left. */
  function HeaderPart(s: Side, data: seq<u8>, takes: seq<nat>, isolate: bool): (n: nat)
    ensures n <= |data|
  {
    if s.kind == HttpConnect && isolate && |data| > 10 && StartsRequest(data[..10]) then Drain(data[..10], takes) else 0
  }

  /** beforeSend and the write loop together: how many bytes of data leave. */
  function Sent(s: Side, data: seq<u8>, env: Env, isolate: bool): (n: nat)
    ensures n <= |data|
  {
    var h := HeaderPart(s, data, env.header, isolate);
    h + Drain(data[h..], env.body)
  }

  /** write with copyRemainData: what is left goes into the leftover buffer and waits for OP_WRITE. */
  function Keep(s: Side, rest: seq<u8>): (Side, bool) {
    var s1 := s.(remain := Some(rest));
    match Register(s1, Writing)
    case None => (s1, false)
    case Some(s2) => (s2, true)
  }

  // ---------- handlers ----------

  /** The dispatched key is taken out of the selected set. */
  function Dispatched(s: Side): Side {
    if s.key.Registered? then s.(key := s.key.(armed := None)) else s
  }

  /** onTunnelEstablished: both sides start reading. */
  function OpenBoth(me: Side, brother: Side): Result {
    match (Register(me, Reading), Register(brother, Reading))
    case (Some(m), Some(b)) => Fine(m, b)
    case (Some(m), None) => Thrown(m, brother)
    case (None, _) => Thrown(me, brother)
  }

  /** onConnected. */
  function Connected(me: Side, brother: Side, setup: Setup, env: Env): Result {
    var m := me.(connected := true);
    if m.kind == Raw then OpenBoth(m, brother)
    else if |setup.request| > BUFFER_SIZE then Thrown(m, brother)
    else
      var m1 := m.(fed := m.fed + setup.request);
      var n := Drain(setup.request, env.body);
      var m2 := Take(m1, setup.request, n);
      if env.ioError then Thrown(m2, brother)
      else if n == |setup.request| then
        match Register(m2, Reading)
        case None => Thrown(m2, brother)
        case Some(m3) => Fine(m3, brother)
      else
        var (m3, ok) := Keep(m2, setup.request[n..]);
        if ok then Fine(m3, brother) else Thrown(m3, brother)
  }

  /** The array behind GL_BUFFER after `data` was read into its front. */
  function Overlay(scratch: seq<u8>, data: seq<u8>): seq<u8> {
    if |data| <= |scratch| then data + scratch[|data|..] else data
  }

  /** HTTP/1.x 200: the twelve bytes at the front of the array, whether or not the read filled them. */
  predicate Accepts(a: seq<u8>) {
    && |a| >= 12
    && a[..6] == [72, 84, 84, 80, 47, 49] && a[6] != 10 && a[6] != 13 && (a[7] == 48 || a[7] == 49)
    && a[8..12] == [32, 50, 48, 48]
  }

  /** Forward what was read to the brother; if the brother cannot take it all, stop reading. */
  function Forward(me: Side, brother: Side, data: seq<u8>, setup: Setup, env: Env): Result {
    var m := me.(got := me.got + data);
    var n := Sent(brother, data, env, setup.isolate);
    var b := Take(brother.(fed := brother.fed + data), data, n);
    if env.ioError then Thrown(m, b)
    else if n == |data| then Fine(m, b)
    else
      var (b1, ok) := Keep(b, data[n..]);
      if ok then Fine(m.(key := Cancelled), b1) else Thrown(m, b1)
  }

  /** onReadable after a read of at least one byte. */
  function Received(me: Side, brother: Side, data: seq<u8>, setup: Setup, env: Env): Result
    requires data != []
  {
    if me.kind == HttpConnect && !me.established then
      // the whole chunk belongs to the proxy's answer and is dropped
      var m := me.(heard := me.heard + data);
      if Accepts(Overlay(env.scratch, data)) then OpenBoth(m.(established := true), brother)
      else Thrown(m, brother)
    else Forward(me, brother, data, setup, env)
  }

  /** onWritable. */
  function Writable(me: Side, brother: Side, setup: Setup, env: Env): Result {
    if me.remain.None? then Thrown(me, brother)
    else
      var left := me.remain.value;
      var n := Sent(me, left, env, setup.isolate);
      var m1 := Take(me, left, n).(remain := Some(left[n..]));
      if env.ioError then Thrown(m1, brother)
      else if n < |left| then Fine(m1, brother)
      else Resume(m1.(key := Cancelled), brother)
  }

  /** All leftover is gone: the brother reads again, or the proxy's answer is awaited. */
  function Resume(me: Side, brother: Side): Result {
    if IsTunnelEstablished(me) then
      match Register(brother, Reading)
      case None => Thrown(me, brother)
      case Some(b) => Fine(me, b)
    else
      match Register(me, Reading)
      case None => Thrown(me, brother)
      case Some(m) => Fine(m, brother)
  }

  /** disposeInternal. */
  function Dispose(s: Side): Side {
    s.(disposed := true, remain := None, key := Unregistered)
  }

  /** An exception disposes both sides. */
  function Settle(r: Result): (Side, Side) {
    match r
    case Fine(m, b) => (m, b)
    case Thrown(m, b) => (Dispose(m), Dispose(b))
  }

  // ---------- the pair ----------

  datatype Pair = Pair(local: Side, remote: Side)

  datatype Event =
    | Select
    | Connectable(ok: bool, env: Env)                      // only the remote side connects
    | Readable(onLocal: bool, data: seq<u8>, env: Env)
    | Writeable(onLocal: bool, env: Env)
    | Closed(onLocal: bool)                                // read returned -1, or threw

  function AfterSelect(s: Side): Side {
    match s.key
    case Cancelled => s.(key := Unregistered)
    case Registered(op, _) => s.(key := Registered(op, Some(op)))
    case Unregistered => s
  }

  /** A key is dispatched for an operation it was armed for, and only while it is valid. */
  predicate Armed(s: Side, op: Op) {
    !s.disposed && s.key.Registered? && s.key.armed == Some(op)
  }

  function Me(p: Pair, onLocal: bool): Side {
    if onLocal then p.local else p.remote
  }

  function Brother(p: Pair, onLocal: bool): Side {
    if onLocal then p.remote else p.local
  }

  function MakePair(sides: (Side, Side), onLocal: bool): Pair {
    if onLocal then Pair(sides.0, sides.1) else Pair(sides.1, sides.0)
  }

  predicate Enabled(p: Pair, e: Event) {
    match e
    case Select => true
    case Connectable(_, _) => Armed(p.remote, Connecting)
    case Readable(onLocal, data, _) => Armed(Me(p, onLocal), Reading) && 0 < |data| <= BUFFER_SIZE
    case Writeable(onLocal, _) => Armed(Me(p, onLocal), Writing)
    case Closed(onLocal) => Armed(Me(p, onLocal), Reading)
  }

  function Step(setup: Setup, p: Pair, e: Event): Pair
    requires Enabled(p, e)
  {
    match e
    case Select => Pair(AfterSelect(p.local), AfterSelect(p.remote))
    case Connectable(ok, env) =>
      var me := Dispatched(p.remote);
      MakePair(Settle(if ok then Connected(me, p.local, setup, env) else Thrown(me, p.local)), false)
    case Readable(onLocal, data, env) =>
      MakePair(Settle(Received(Dispatched(Me(p, onLocal)), Brother(p, onLocal), data, setup, env)), onLocal)
    case Writeable(onLocal, env) =>
      MakePair(Settle(Writable(Dispatched(Me(p, onLocal)), Brother(p, onLocal), setup, env)), onLocal)
    case Closed(onLocal) => MakePair(Settle(Thrown(Me(p, onLocal), Brother(p, onLocal))), onLocal)
  }

  /** After onAccepted and connect(): the remote channel waits for OP_CONNECT, the local one is not registered. */
  function Start(remoteKind: Kind): Pair {
    Pair(Side(Raw, false, Unregistered, None, false, true, [], [], [], []),
         Side(remoteKind, false, Registered(Connecting, None), None, false, false, [], [], [], []))
  }

  // ---------- the invariant ----------

  /** Both sides may exchange data. */
  predicate Up(r: Side) {
    if r.kind == Raw then r.connected else r.established
  }

  /** The CONNECT request, once it was handed to the channel. */
  function Prologue(setup: Setup, r: Side): seq<u8> {
    if r.kind == HttpConnect && r.connected && |setup.request| <= BUFFER_SIZE then setup.request else []
  }

  /** A side with leftover waits for OP_WRITE while its brother is not reading. */
  predicate BackPressure(x: Side, y: Side) {
    Left(x) != [] ==>
      && x.key.Registered? && x.key.interest == Writing && x.key.armed != Some(Connecting)
      && (y.key.Cancelled? || (y.key.Unregistered? && x.key.armed != Some(Reading)))
  }

  /** OP_WRITE is only ever waited for with leftover at hand. */
  predicate WritingHasLeft(x: Side) {
    x.key.Registered? ==>
      && (x.key.interest == Writing ==> Left(x) != [])
      && (x.key.armed == Some(Writing) ==> x.key.interest == Writing)
  }

  predicate Conserved(x: Side) {
    x.accepted + Left(x) == x.fed
  }

  predicate Fed(setup: Setup, p: Pair) {
    && p.local.fed == p.remote.got
    && p.remote.fed == Prologue(setup, p.remote) + p.local.got
  }

  /** How the handshake stands, before the tunnel is up. */
  predicate Handshake(p: Pair) {
    var l, r := p.local, p.remote;
    && l.kind == Raw
    && (!Up(r) ==> l.key == Unregistered && l.got == [] && l.fed == [] && Left(l) == [] && r.got == [])
    && (!r.connected ==>
          && !r.established && r.fed == [] && r.remain == None
          && (r.key.Registered? ==>
                r.key.interest == Connecting && (r.key.armed == None || r.key.armed == Some(Connecting))))
    && (r.connected ==> r.key.Registered? ==> r.key.interest != Connecting && r.key.armed != Some(Connecting))
    && (r.connected && !Up(r) ==> r.key.Registered? ==> (r.key.armed == None || r.key.armed == Some(r.key.interest)))
    && (l.key.Registered? ==> l.key.interest != Connecting && l.key.armed != Some(Connecting))
  }

  predicate Live(setup: Setup, p: Pair) {
    && Conserved(p.local) && Conserved(p.remote)
    && Handshake(p)
    && BackPressure(p.local, p.remote) && BackPressure(p.remote, p.local)
    && WritingHasLeft(p.local) && WritingHasLeft(p.remote)
  }

  predicate Inv(setup: Setup, p: Pair) {
    && p.local.disposed == p.remote.disposed
    && Fed(setup, p)
    && p.local.accepted <= p.local.fed && p.remote.accepted <= p.remote.fed
    && (!p.local.disposed ==> Live(setup, p))
  }

  // ---------- the handlers keep it ----------

  lemma SplitConserves(a: seq<u8>, data: seq<u8>, n: nat)
    requires n <= |data|
    ensures (a + data[..n]) + data[n..] == a + data
    ensures a + data[..n] <= a + data
    ensures n == |data| ==> a + data[..n] == a + data
  {
    assert data[..n] + data[n..] == data;
    assert (a + data[..n]) + data[n..] == a + (data[..n] + data[n..]);
  }

  /** The two sides of a running pair, without the handshake. */
  predicate Balanced(x: Side, y: Side) {
    && Conserved(x) && Conserved(y)
    && BackPressure(x, y) && BackPressure(y, x)
    && WritingHasLeft(x) && WritingHasLeft(y)
  }

  predicate NotConnecting(x: Side) {
    x.key.Registered? ==> x.key.interest != Connecting && x.key.armed != Some(Connecting)
  }

  predicate SamePhase(x: Side, d: Side) {
    d.kind == x.kind && d.disposed == x.disposed && d.established == x.established && d.connected == x.connected
  }

  /** A side may be armed for reading only while its brother has nothing left over. */
  lemma ReaderMeetsEmpty(me: Side, brother: Side)
    requires Balanced(me, brother) && Armed(me, Reading)
    ensures Left(brother) == []
    ensures Left(me) != [] ==> brother.key.Cancelled?
  {
  }

  /** Forwarding keeps the balance; the leftover buffer it may fill was empty. */
  lemma ForwardKeeps(me0: Side, brother: Side, data: seq<u8>, setup: Setup, env: Env)
    requires Balanced(me0, brother) && Armed(me0, Reading) && NotConnecting(me0) && NotConnecting(brother)
    ensures var r := Forward(Dispatched(me0), brother, data, setup, env);
            && SamePhase(me0, r.me) && SamePhase(brother, r.brother)
            && r.me.got == me0.got + data && r.me.fed == me0.fed && r.me.accepted == me0.accepted
            && r.brother.fed == brother.fed + data && r.brother.got == brother.got
            && r.brother.accepted <= r.brother.fed
            && (r.Fine? ==> Balanced(r.me, r.brother) && NotConnecting(r.me) && NotConnecting(r.brother))
  {
    ReaderMeetsEmpty(me0, brother);
    assert brother.accepted == brother.fed;
    SplitConserves(brother.accepted, data, Sent(brother, data, env, setup.isolate));
  }

  /** The brother of a drained side is idle, so it may be registered for reading. */
  lemma ResumeKeeps(me: Side, brother: Side)
    requires Conserved(me) && Conserved(brother) && Left(me) == [] && Left(brother) == [] && me.key.Cancelled?
    requires WritingHasLeft(brother) && NotConnecting(brother) && !brother.key.Registered?
    ensures var r := Resume(me, brother);
            && SamePhase(me, r.me) && SamePhase(brother, r.brother)
            && r.me.got == me.got && r.me.fed == me.fed && r.me.accepted == me.accepted
            && r.brother.fed == brother.fed && r.brother.got == brother.got && r.brother.accepted == brother.accepted
            && (r.Fine? ==> IsTunnelEstablished(me) && Balanced(r.me, r.brother)
                            && NotConnecting(r.me) && NotConnecting(r.brother))
  {
  }

  /** Sending leftover keeps the balance; when it is gone the brother may read again. */
  lemma WritableKeeps(me0: Side, brother: Side, setup: Setup, env: Env)
    requires Balanced(me0, brother) && Armed(me0, Writing) && NotConnecting(me0) && NotConnecting(brother)
    ensures var r := Writable(Dispatched(me0), brother, setup, env);
            && SamePhase(me0, r.me) && SamePhase(brother, r.brother)
            && r.me.got == me0.got && r.me.fed == me0.fed
            && r.brother.fed == brother.fed && r.brother.got == brother.got && r.brother.accepted == brother.accepted
            && r.me.accepted <= r.me.fed
            && (r.Fine? ==> Balanced(r.me, r.brother) && NotConnecting(r.me) && NotConnecting(r.brother)
                            && (IsTunnelEstablished(me0)
                                || (r.brother == brother && Left(r.me) != [] && r.me.key.armed == None)))
  {
    var left := Left(me0);
    assert me0.remain == Some(left) && left != [] && Left(brother) == [];
    var m := Dispatched(me0);
    var n := Sent(m, left, env, setup.isolate);
    SplitConserves(me0.accepted, left, n);
    var m1 := Take(m, left, n).(remain := Some(left[n..]));
    assert Conserved(m1);
    if n == |left| && !env.ioError {
      ResumeKeeps(m1.(key := Cancelled), brother);
    }
  }

  // ---------- every step ----------

  lemma SelectSide(s: Side)
    requires WritingHasLeft(s)
    ensures Left(AfterSelect(s)) == Left(s) && WritingHasLeft(AfterSelect(s))
  {}

  lemma SelectPressure(x: Side, y: Side)
    requires BackPressure(x, y)
    ensures BackPressure(AfterSelect(x), AfterSelect(y))
  {}

  lemma SelectHandshake(p: Pair)
    requires Handshake(p)
    ensures Handshake(Pair(AfterSelect(p.local), AfterSelect(p.remote)))
  {}

  lemma SelectKeeps(setup: Setup, p: Pair)
    requires Inv(setup, p)
    ensures Inv(setup, Step(setup, p, Select))
  {
    if !p.local.disposed {
      SelectSide(p.local);
      SelectSide(p.remote);
      SelectPressure(p.local, p.remote);
      SelectPressure(p.remote, p.local);
      SelectHandshake(p);
      assert Prologue(setup, AfterSelect(p.remote)) == Prologue(setup, p.remote);
      hide Prologue, Left, Handshake, BackPressure, WritingHasLeft;
    }
  }

  lemma ConnectableKeeps(setup: Setup, p: Pair, ok: bool, env: Env)
    requires Inv(setup, p) && Enabled(p, Connectable(ok, env))
    ensures Inv(setup, Step(setup, p, Connectable(ok, env)))
  {
    hide Drain;
    SplitConserves([], setup.request, Drain(setup.request, env.body));
  }

  /** The proxy's answer opens both sides, or the pair is given up. */
  lemma AnswerKeeps(setup: Setup, p: Pair, data: seq<u8>, env: Env)
    requires Inv(setup, p) && Armed(p.remote, Reading) && data != []
    requires p.remote.kind == HttpConnect && !p.remote.established
    ensures Inv(setup, MakePair(Settle(Received(Dispatched(p.remote), p.local, data, setup, env)), false))
  {
  }

  lemma ReadLocalKeeps(setup: Setup, p: Pair, data: seq<u8>, env: Env)
    requires Inv(setup, p) && Armed(p.local, Reading)
    ensures Inv(setup, MakePair(Settle(Forward(Dispatched(p.local), p.remote, data, setup, env)), true))
  {
    ForwardKeeps(p.local, p.remote, data, setup, env);
    assert p.remote.fed + data == Prologue(setup, p.remote) + (p.local.got + data);
  }

  lemma ReadRemoteKeeps(setup: Setup, p: Pair, data: seq<u8>, env: Env)
    requires Inv(setup, p) && Armed(p.remote, Reading) && Up(p.remote)
    ensures Inv(setup, MakePair(Settle(Forward(Dispatched(p.remote), p.local, data, setup, env)), false))
  {
    ForwardKeeps(p.remote, p.local, data, setup, env);
  }

  lemma ReadableKeeps(setup: Setup, p: Pair, onLocal: bool, data: seq<u8>, env: Env)
    requires Inv(setup, p) && Enabled(p, Readable(onLocal, data, env))
    ensures Inv(setup, Step(setup, p, Readable(onLocal, data, env)))
  {
    if onLocal {
      ReadLocalKeeps(setup, p, data, env);
    } else if p.remote.kind == HttpConnect && !p.remote.established {
      AnswerKeeps(setup, p, data, env);
    } else {
      ReadRemoteKeeps(setup, p, data, env);
    }
  }

  lemma WriteableKeeps(setup: Setup, p: Pair, onLocal: bool, env: Env)
    requires Inv(setup, p) && Enabled(p, Writeable(onLocal, env))
    ensures Inv(setup, Step(setup, p, Writeable(onLocal, env)))
  {
    WritableKeeps(Me(p, onLocal), Brother(p, onLocal), setup, env);
  }

  lemma StepKeeps(setup: Setup, p: Pair, e: Event)
    requires Inv(setup, p) && Enabled(p, e)
    ensures Inv(setup, Step(setup, p, e))
  {
    match e
    case Select => SelectKeeps(setup, p);
    case Connectable(ok, env) => ConnectableKeeps(setup, p, ok, env);
    case Readable(onLocal, data, env) => ReadableKeeps(setup, p, onLocal, data, env);
    case Writeable(onLocal, env) => WriteableKeeps(setup, p, onLocal, env);
    case Closed(onLocal) =>
  }

  // ---------- runs ----------

  predicate Legal(setup: Setup, p: Pair, es: seq<Event>)
    decreases |es|
  {
    es == [] || (Enabled(p, es[0]) && Legal(setup, Step(setup, p, es[0]), es[1..]))
  }

  function Run(setup: Setup, p: Pair, es: seq<Event>): Pair
    requires Legal(setup, p, es)
    decreases |es|
  {
    if es == [] then p else Run(setup, Step(setup, p, es[0]), es[1..])
  }

  lemma {:induction false} RunKeeps(setup: Setup, p: Pair, es: seq<Event>)
    requires Inv(setup, p) && Legal(setup, p, es)
    ensures Inv(setup, Run(setup, p, es))
    decreases |es|
  {
    if es == [] {
    } else {
      StepKeeps(setup, p, es[0]);
      RunKeeps(setup, Step(setup, p, es[0]), es[1..]);
    }
  }

  /**
    Relay conservation, over every run of a fresh pair. Until disposal what each
    channel took plus its leftover is exactly what it was given: on the remote
    side the whole CONNECT request (if any) and then the bytes read from the
    app, on the local side the bytes read from the remote after establishment.
    After a disposal what was taken is still a prefix of that. Before the tunnel
    is up nothing was read from the app.
  */
  lemma Conservation(setup: Setup, kind: Kind, es: seq<Event>)
    requires Legal(setup, Start(kind), es)
    ensures var p := Run(setup, Start(kind), es);
            && p.local.accepted <= p.remote.got
            && p.remote.accepted <= Prologue(setup, p.remote) + p.local.got
            && (!p.local.disposed ==>
                  && p.local.accepted + Left(p.local) == p.remote.got
                  && p.remote.accepted + Left(p.remote) == Prologue(setup, p.remote) + p.local.got
                  && (!Up(p.remote) ==> p.local.got == [] && p.local.key == Unregistered)
                  && (Left(p.local) == [] || Left(p.remote) == []))
  {
    RunKeeps(setup, Start(kind), es);
  }

  /** The leftover buffer is never overwritten while it holds bytes: whoever reads has a brother without leftover. */
  lemma LeftoverNeverOverwritten(setup: Setup, kind: Kind, es: seq<Event>, onLocal: bool, data: seq<u8>, env: Env)
    requires Legal(setup, Start(kind), es)
    requires Enabled(Run(setup, Start(kind), es), Readable(onLocal, data, env))
    ensures Left(Brother(Run(setup, Start(kind), es), onLocal)) == []
  {
    RunKeeps(setup, Start(kind), es);
    var p := Run(setup, Start(kind), es);
    ReaderMeetsEmpty(Me(p, onLocal), Brother(p, onLocal));
  }

  // ---------- the proxy's answer ----------

  /** The bytes begin with the proxy's 200. */
  predicate Says200(data: seq<u8>) {
    |data| >= 12 && Accepts(data[..12])
  }

  /** A proper part of a 200: old bytes of the shared buffer may complete it. */
  ghost predicate Ambiguous(data: seq<u8>) {
    |data| < 12 && exists a :: Accepts(a) && data <= a
  }

  /** Some content of the shared buffer makes the read pass for the proxy's 200. */
  ghost predicate MayPass(data: seq<u8>) {
    exists scratch :: Accepts(Overlay(scratch, data))
  }

  /** A read of at least twelve bytes is judged by its own bytes. */
  lemma AnswerIsOwn(scratch: seq<u8>, data: seq<u8>)
    requires |data| >= 12
    ensures Accepts(Overlay(scratch, data)) <==> Accepts(data[..12])
  {
    var a := Overlay(scratch, data);
    assert a[..12] == data[..12] && a[..6] == data[..12][..6] && a[8..12] == data[..12][8..12];
  }

  /** A read passes, with some content of the buffer, exactly when it says 200 or is ambiguous. */
  lemma WhatPasses(data: seq<u8>)
    ensures MayPass(data) <==> Says200(data) || Ambiguous(data)
  {
    if |data| >= 12 {
      AnswerIsOwn([], data);
      forall scratch
        ensures Accepts(Overlay(scratch, data)) <==> Accepts(data[..12])
      {
        AnswerIsOwn(scratch, data);
      }
    } else {
      if MayPass(data) {
        var scratch :| Accepts(Overlay(scratch, data));
        assert data <= Overlay(scratch, data);
      }
      if Ambiguous(data) {
        var a :| Accepts(a) && data <= a;
        assert Overlay(a, data) == a;
      }
    }
  }

  /** The judgement is about the bytes read, whatever the buffer held, exactly for reads that are not ambiguous. */
  lemma AnswerDecidedIff(data: seq<u8>)
    ensures (forall scratch :: Accepts(Overlay(scratch, data)) <==> Says200(data)) <==> !Ambiguous(data)
  {
    WhatPasses(data);
    if Ambiguous(data) {
      var a :| Accepts(a) && data <= a;
      assert Overlay(a, data) == a;
    } else if |data| >= 12 {
      forall scratch
        ensures Accepts(Overlay(scratch, data)) <==> Says200(data)
      {
        AnswerIsOwn(scratch, data);
      }
    }
  }

  /**
    What stays true of a CONNECT pair, disposed or not: nothing is read from the
    app before the tunnel is established, and then the proxy sent a read that passes.
  */
  ghost predicate Answered(p: Pair) {
    var r := p.remote;
    && r.kind == HttpConnect
    && (p.local.got != [] ==> r.established)
    && (r.established ==> r.heard != [] && MayPass(r.heard))
    && (!r.established && !r.disposed ==> r.heard == [])
  }

  lemma ForwardAnswered(me: Side, brother: Side, data: seq<u8>, setup: Setup, env: Env)
    ensures var r := Forward(me, brother, data, setup, env);
            && SamePhase(me, r.me) && SamePhase(brother, r.brother)
            && r.me.heard == me.heard && r.brother.heard == brother.heard && r.brother.got == brother.got
  {
    hide Sent, HeaderPart, Drain, StartsRequest;
  }

  lemma ResumeAnswered(me: Side, brother: Side)
    ensures var r := Resume(me, brother);
            && SamePhase(me, r.me) && SamePhase(brother, r.brother)
            && r.me.heard == me.heard && r.brother.heard == brother.heard
            && r.me.got == me.got && r.brother.got == brother.got
  {}

  lemma WritableAnswered(me: Side, brother: Side, setup: Setup, env: Env)
    ensures var r := Writable(me, brother, setup, env);
            && SamePhase(me, r.me) && SamePhase(brother, r.brother)
            && r.me.heard == me.heard && r.brother.heard == brother.heard
            && r.me.got == me.got && r.brother.got == brother.got
  {
    hide Sent, HeaderPart, Drain, StartsRequest, Resume;
    if me.remain.Some? {
      var left := me.remain.value;
      var n := Sent(me, left, env, setup.isolate);
      ResumeAnswered(Take(me, left, n).(remain := Some(left[n..]), key := Cancelled), brother);
    }
  }

  lemma ConnectedAnswered(me: Side, brother: Side, setup: Setup, env: Env)
    ensures var r := Connected(me, brother, setup, env);
            && r.me.kind == me.kind && r.me.disposed == me.disposed && r.me.established == me.established
            && r.me.heard == me.heard && r.me.got == me.got && r.brother.got == brother.got
            && SamePhase(brother, r.brother) && r.brother.heard == brother.heard
  {
    hide Drain;
  }

  lemma OpenBothAnswered(me: Side, brother: Side)
    ensures var r := OpenBoth(me, brother);
            && SamePhase(me, r.me) && SamePhase(brother, r.brother)
            && r.me.heard == me.heard && r.brother.heard == brother.heard
            && r.me.got == me.got && r.brother.got == brother.got
  {}

  lemma Passes(scratch: seq<u8>, data: seq<u8>)
    ensures Accepts(Overlay(scratch, data)) ==> MayPass(data)
  {}

  lemma AnswerAnswered(p: Pair, data: seq<u8>, setup: Setup, env: Env)
    requires Answered(p) && !p.remote.established && !p.remote.disposed && data != []
    ensures Answered(MakePair(Settle(Received(Dispatched(p.remote), p.local, data, setup, env)), false))
  {
    var me := Dispatched(p.remote);
    var m := me.(heard := data, established := Accepts(Overlay(env.scratch, data)));
    assert me.heard + data == data;
    Passes(env.scratch, data);
    OpenBothAnswered(m, p.local);
    hide Accepts, Overlay, MayPass, OpenBoth;
    assert Received(me, p.local, data, setup, env)
        == if m.established then OpenBoth(m, p.local) else Thrown(m, p.local);
    hide Received;
  }

  lemma StepAnswered(setup: Setup, p: Pair, e: Event)
    requires Inv(setup, p) && Answered(p) && Enabled(p, e)
    ensures Answered(Step(setup, p, e))
  {
    hide Forward, Connected, Writable, Accepts, Overlay, MayPass, Left, Prologue;
    match e
    case Select =>
    case Connectable(ok, env) => ConnectedAnswered(Dispatched(p.remote), p.local, setup, env);
    case Readable(onLocal, data, env) =>
      if onLocal {
        ForwardAnswered(Dispatched(p.local), p.remote, data, setup, env);
      } else if !p.remote.established {
        AnswerAnswered(p, data, setup, env);
      } else {
        ForwardAnswered(Dispatched(p.remote), p.local, data, setup, env);
      }
    case Writeable(onLocal, env) => WritableAnswered(Dispatched(Me(p, onLocal)), Brother(p, onLocal), setup, env);
    case Closed(onLocal) =>
  }

  lemma {:induction false} RunAnswered(setup: Setup, p: Pair, es: seq<Event>)
    requires Inv(setup, p) && Answered(p) && Legal(setup, p, es)
    ensures Answered(Run(setup, p, es))
    decreases |es|
  {
    if es == [] {
    } else {
      StepKeeps(setup, p, es[0]);
      StepAnswered(setup, p, es[0]);
      RunAnswered(setup, Step(setup, p, es[0]), es[1..]);
    }
  }

  /** No read before establishment is ambiguous. */
  ghost predicate ClearRun(setup: Setup, p: Pair, es: seq<Event>)
    requires Legal(setup, p, es)
    decreases |es|
  {
    es == []
    || ((es[0].Readable? && !es[0].onLocal && !p.remote.established ==> !Ambiguous(es[0].data))
        && ClearRun(setup, Step(setup, p, es[0]), es[1..]))
  }

  lemma StepHears(setup: Setup, p: Pair, e: Event)
    requires Inv(setup, p) && Answered(p) && Enabled(p, e)
    ensures var r := Step(setup, p, e).remote;
            && (p.remote.established ==> r.established)
            && (p.remote.disposed ==> r.disposed)
            && if e.Readable? && !e.onLocal && !p.remote.established then
                 p.remote.heard == [] && r.heard == e.data && (r.established || r.disposed)
               else r.heard == p.remote.heard
  {
    assert e.Readable? && !e.onLocal && !p.remote.established ==> [] + e.data == e.data;
    hide Forward, Connected, Writable, Accepts, Overlay, MayPass, Left, Prologue;
    match e
    case Select =>
    case Connectable(ok, env) => ConnectedAnswered(Dispatched(p.remote), p.local, setup, env);
    case Readable(onLocal, data, env) =>
      ForwardAnswered(Dispatched(Me(p, onLocal)), Brother(p, onLocal), data, setup, env);
    case Writeable(onLocal, env) => WritableAnswered(Dispatched(Me(p, onLocal)), Brother(p, onLocal), setup, env);
    case Closed(onLocal) =>
  }

  lemma {:induction false} HearsNoMore(setup: Setup, p: Pair, es: seq<Event>)
    requires Inv(setup, p) && Answered(p) && Legal(setup, p, es) && (p.remote.established || p.remote.disposed)
    ensures ClearRun(setup, p, es) && Run(setup, p, es).remote.heard == p.remote.heard
    decreases |es|
  {
    if es == [] {
    } else {
      StepKeeps(setup, p, es[0]);
      StepAnswered(setup, p, es[0]);
      StepHears(setup, p, es[0]);
      hide Step, Inv, Answered;
      HearsNoMore(setup, Step(setup, p, es[0]), es[1..]);
    }
  }

  /** Before establishment there is one read at most, so its bytes tell whether the run is clear. */
  lemma {:induction false} ClearRunIff(setup: Setup, p: Pair, es: seq<Event>)
    requires Inv(setup, p) && Answered(p) && Legal(setup, p, es) && p.remote.heard == []
    ensures var heard := Run(setup, p, es).remote.heard; ClearRun(setup, p, es) <==> heard == [] || !Ambiguous(heard)
    decreases |es|
  {
    if es == [] {
    } else {
      var e, d := es[0], Step(setup, p, es[0]);
      StepKeeps(setup, p, e);
      StepAnswered(setup, p, e);
      StepHears(setup, p, e);
      assert e.Readable? ==> e.data != [];
      hide Step, Inv, Answered, Ambiguous;
      if e.Readable? && !e.onLocal && !p.remote.established {
        HearsNoMore(setup, d, es[1..]);
      } else {
        ClearRunIff(setup, d, es[1..]);
      }
    }
  }

  /**
    Over every run of a CONNECT pair without an ambiguous read: once a byte of the
    app was read, the proxy sent an HTTP/1.0 or HTTP/1.1 200 before.
  */
  lemma ProxyAnsweredFirst(setup: Setup, es: seq<Event>)
    requires Legal(setup, Start(HttpConnect), es) && ClearRun(setup, Start(HttpConnect), es)
    ensures var p := Run(setup, Start(HttpConnect), es); p.local.got != [] ==> Says200(p.remote.heard)
  {
    RunAnswered(setup, Start(HttpConnect), es);
    ClearRunIff(setup, Start(HttpConnect), es);
    WhatPasses(Run(setup, Start(HttpConnect), es).remote.heard);
  }

  /** The run in which the request leaves, the proxy sends `data`, and the app is read. */
  function OpeningRun(setup: Setup, data: seq<u8>, scratch: seq<u8>, byte: u8): seq<Event> {
    [Select, Connectable(true, Env([], [], [|setup.request|], false)), Select,
     Readable(false, data, Env(scratch, [], [], false)), Select, Readable(true, [byte], Env([], [], [1], false))]
  }

  /** And every ambiguous read does let the app be read without a 200, for a suitable content of the buffer. */
  lemma AmbiguousAnswerOpens(setup: Setup, data: seq<u8>, byte: u8) returns (es: seq<Event>)
    requires 0 < |setup.request| <= BUFFER_SIZE && data != [] && Ambiguous(data)
    ensures Legal(setup, Start(HttpConnect), es)
    ensures var p := Run(setup, Start(HttpConnect), es);
            p.local.got == [byte] && p.remote.heard == data && !Says200(p.remote.heard)
  {
    var a :| Accepts(a) && data <= a;
    assert Overlay(a, data) == a;
    es := OpeningRun(setup, data, a, byte);
    OpeningSteps(setup, data, a, byte);
  }

  lemma OneEvent(setup: Setup, p: Pair, e: Event, es: seq<Event>)
    requires Enabled(p, e) && Legal(setup, Step(setup, p, e), es)
    ensures Legal(setup, p, [e] + es) && Run(setup, p, [e] + es) == Run(setup, Step(setup, p, e), es)
  {
    hide Step, Enabled;
    assert ([e] + es)[0] == e && ([e] + es)[1..] == es;
  }

  lemma DrainAll(data: seq<u8>)
    requires data != []
    ensures Drain(data, [|data|]) == |data|
  {
    assert data[|data|..] == [];
  }

  /** The remote side after the request left, waiting for the answer. */
  function Waiting(setup: Setup, armed: Option<Op>): Pair {
    Pair(Side(Raw, false, Unregistered, None, false, true, [], [], [], []),
         Side(HttpConnect, false, Registered(Reading, armed), None, false, true, setup.request, setup.request, [], []))
  }

  /** Both sides after the answer. */
  function Open(setup: Setup, data: seq<u8>, armed: Option<Op>): Pair {
    Pair(Side(Raw, false, Registered(Reading, armed), None, false, true, [], [], [], []),
         Side(HttpConnect, false, Registered(Reading, armed), None, true, true, setup.request, setup.request, [], data))
  }

  lemma ConnectStep(setup: Setup)
    requires 0 < |setup.request| <= BUFFER_SIZE
    ensures var p := Step(setup, Start(HttpConnect), Select);
            var e := Connectable(true, Env([], [], [|setup.request|], false));
            Enabled(p, e) && Step(setup, p, e) == Waiting(setup, None)
  {
    DrainAll(setup.request);
    assert [] + setup.request == setup.request && [] + setup.request[..|setup.request|] == setup.request;
    hide Drain;
  }

  lemma AnswerStep(setup: Setup, data: seq<u8>, scratch: seq<u8>)
    requires 0 < |data| <= BUFFER_SIZE && Accepts(Overlay(scratch, data))
    ensures var e := Readable(false, data, Env(scratch, [], [], false));
            && Enabled(Waiting(setup, Some(Reading)), e)
            && Step(setup, Waiting(setup, Some(Reading)), e) == Open(setup, data, None)
  {
    hide Accepts, Overlay;
    assert [] + data == data;
  }

  lemma AppStep(setup: Setup, data: seq<u8>, byte: u8)
    ensures var e := Readable(true, [byte], Env([], [], [1], false));
            && Enabled(Open(setup, data, Some(Reading)), e)
            && Step(setup, Open(setup, data, Some(Reading)), e).local.got == [byte]
            && Step(setup, Open(setup, data, Some(Reading)), e).remote.heard == data
  {
    DrainAll([byte]);
  }

  lemma OpeningTail(setup: Setup, data: seq<u8>, scratch: seq<u8>, byte: u8)
    requires 0 < |data| < 12 && Accepts(Overlay(scratch, data))
    ensures var es := OpeningRun(setup, data, scratch, byte)[2..];
            && Legal(setup, Waiting(setup, None), es)
            && Run(setup, Waiting(setup, None), es).local.got == [byte]
            && Run(setup, Waiting(setup, None), es).remote.heard == data
  {
    var answer, app := OpeningRun(setup, data, scratch, byte)[3], OpeningRun(setup, data, scratch, byte)[5];
    AnswerStep(setup, data, scratch);
    AppStep(setup, data, byte);
    assert Step(setup, Waiting(setup, None), Select) == Waiting(setup, Some(Reading));
    assert Step(setup, Open(setup, data, None), Select) == Open(setup, data, Some(Reading));
    hide Step, Accepts, Overlay;
    OneEvent(setup, Open(setup, data, Some(Reading)), app, []);
    OneEvent(setup, Open(setup, data, None), Select, [app]);
    OneEvent(setup, Waiting(setup, Some(Reading)), answer, [Select, app]);
    OneEvent(setup, Waiting(setup, None), Select, [answer, Select, app]);
  }

  lemma OpeningSteps(setup: Setup, data: seq<u8>, scratch: seq<u8>, byte: u8)
    requires 0 < |setup.request| <= BUFFER_SIZE && 0 < |data| < 12 && Accepts(Overlay(scratch, data))
    ensures Legal(setup, Start(HttpConnect), OpeningRun(setup, data, scratch, byte))
    ensures var p := Run(setup, Start(HttpConnect), OpeningRun(setup, data, scratch, byte));
            p.local.got == [byte] && p.remote.heard == data
  {
    var es := OpeningRun(setup, data, scratch, byte);
    ConnectStep(setup);
    OpeningTail(setup, data, scratch, byte);
    assert es == [Select] + ([es[1]] + es[2..]);
    hide Step, Accepts, Overlay, Legal, Run;
    OneEvent(setup, Step(setup, Start(HttpConnect), Select), es[1], es[2..]);
    OneEvent(setup, Start(HttpConnect), Select, [es[1]] + es[2..]);
  }

  // ---------- a request in several writes ----------

  /** The CONNECT request did not leave in one go, and the tunnel is not established. */
  predicate Stranded(p: Pair) {
    && p.remote.kind == HttpConnect && !p.remote.established
    && (p.remote.disposed || (p.remote.connected && Left(p.remote) != []))
  }

  /**
    A stranded pair stays stranded: when the rest of the request is sent the key
    is cancelled and registered again at once, which throws, so both sides are
    disposed; until then the answer is not waited for.
  */
  lemma StaysStranded(setup: Setup, p: Pair, e: Event)
    requires Inv(setup, p) && Enabled(p, e) && Stranded(p)
    ensures Stranded(Step(setup, p, e))
  {
    if e.Writeable? && !e.onLocal {
      WritableKeeps(p.remote, p.local, setup, e.env);
      WritableAnswered(Dispatched(p.remote), p.local, setup, e.env);
      hide Writable;
    }
  }

  /** The connection's request left at the first write. */
  predicate SentWhole(setup: Setup, e: Event) {
    e.Connectable? ==> e.ok && !e.env.ioError && Drain(setup.request, e.env.body) == |setup.request| <= BUFFER_SIZE
  }

  lemma SplitStrands(setup: Setup, p: Pair, e: Event)
    requires Inv(setup, p) && Enabled(p, e) && p.remote.kind == HttpConnect && !SentWhole(setup, e)
    ensures Stranded(Step(setup, p, e))
  {
    hide Drain;
  }

  lemma {:induction false} StrandedForGood(setup: Setup, p: Pair, es: seq<Event>)
    requires Inv(setup, p) && Legal(setup, p, es) && Stranded(p)
    ensures Stranded(Run(setup, p, es))
    decreases |es|
  {
    if es == [] {
    } else {
      StepKeeps(setup, p, es[0]);
      StaysStranded(setup, p, es[0]);
      StrandedForGood(setup, Step(setup, p, es[0]), es[1..]);
    }
  }

  lemma {:induction false} OpenedHadSentWhole(setup: Setup, p: Pair, es: seq<Event>)
    requires Inv(setup, p) && Legal(setup, p, es) && p.remote.kind == HttpConnect
    requires Run(setup, p, es).remote.established
    ensures forall e | e in es :: SentWhole(setup, e)
    decreases |es|
  {
    if es == [] {
    } else {
      StepKeeps(setup, p, es[0]);
      KindStays(setup, p, es[0]);
      if !SentWhole(setup, es[0]) {
        SplitStrands(setup, p, es[0]);
        StrandedForGood(setup, Step(setup, p, es[0]), es[1..]);
      } else {
        OpenedHadSentWhole(setup, Step(setup, p, es[0]), es[1..]);
        assert es == [es[0]] + es[1..];
      }
    }
  }

  lemma KindStays(setup: Setup, p: Pair, e: Event)
    requires Inv(setup, p) && Enabled(p, e)
    ensures Step(setup, p, e).remote.kind == p.remote.kind
  {
    hide Forward, Connected, Writable, Accepts, Overlay, Left, Prologue;
    match e
    case Select =>
    case Connectable(ok, env) => ConnectedAnswered(Dispatched(p.remote), p.local, setup, env);
    case Readable(onLocal, data, env) =>
      ForwardAnswered(Dispatched(Me(p, onLocal)), Brother(p, onLocal), data, setup, env);
    case Writeable(onLocal, env) => WritableAnswered(Dispatched(Me(p, onLocal)), Brother(p, onLocal), setup, env);
    case Closed(onLocal) =>
  }

  /** Over every run: a tunnel that was established sent its CONNECT request in one write. */
  lemma EstablishedMeansOneWrite(setup: Setup, es: seq<Event>)
    requires Legal(setup, Start(HttpConnect), es) && Run(setup, Start(HttpConnect), es).remote.established
    ensures forall e | e in es && e.Connectable? :: e.ok && Drain(setup.request, e.env.body) == |setup.request|
  {
    OpenedHadSentWhole(setup, Start(HttpConnect), es);
    assert forall e | e in es && e.Connectable? :: SentWhole(setup, e);
  }

  /**
    A CONNECT request that did not leave in one go is never answered: when the
    rest is sent the key is cancelled and registered again at once, which
    throws, so both sides are disposed.
  */
  lemma SplitRequestDisposes(setup: Setup, kind: Kind, es: seq<Event>, env: Env)
    requires Legal(setup, Start(kind), es)
    requires var p := Run(setup, Start(kind), es);
             && Enabled(p, Writeable(false, env)) && !Up(p.remote)
             && Sent(p.remote, Left(p.remote), env, setup.isolate) == |Left(p.remote)|
    ensures var q := Step(setup, Run(setup, Start(kind), es), Writeable(false, env));
            q.local.disposed && q.remote.disposed
  {
    RunKeeps(setup, Start(kind), es);
    var p := Run(setup, Start(kind), es);
    assert Left(p.remote) != [];
  }
}
