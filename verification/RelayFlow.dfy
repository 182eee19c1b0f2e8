/**
  How data keeps flowing through a relayed pair: who is registered for what after
  every dispatch, when a pair is given up, that one side always listens, and that
  the other falls silent for good once its channel could not take all.
*/
module RelayFlow {
  import opened Words
  import opened Relay

  // ---------- the write loop ----------

  /** What a sequence of write calls takes, up to the first that takes nothing. */
  function Total(takes: seq<nat>): nat {
    if takes == [] || takes[0] == 0 then 0 else takes[0] + Total(takes[1..])
  }

  function Min(x: nat, y: nat): nat {
    if x <= y then x else y
  }

  /** The loop gets rid of what the calls take, or of everything. */
  lemma {:induction false} DrainTotal(data: seq<u8>, takes: seq<nat>)
    ensures Drain(data, takes) == Min(|data|, Total(takes))
    decreases |takes|
  {
    if data == [] || takes == [] || takes[0] == 0 {
    } else {
      DrainTotal(data[Min(takes[0], |data|)..], takes[1..]);
    }
  }

  /** The bytes begin with the word, in either case. */
  predicate Spells(data: seq<u8>, upper: string, lower: string)
    requires |upper| == |lower|
  {
    |data| >= |upper| && forall i | 0 <= i < |upper| :: data[i] as char == upper[i] || data[i] as char == lower[i]
  }

  predicate IsRequest(data: seq<u8>) {
    Spells(data, "GET /", "get /") || Spells(data, "POST /", "post /")
  }

  lemma RequestsSpell(data: seq<u8>)
    ensures StartsRequest(data) <==> IsRequest(data)
  {
    assert Spells(data, "GET /", "get /") <==>
           |data| >= 5 && Upper(data[0]) == 71 && Upper(data[1]) == 69 && Upper(data[2]) == 84
           && data[3] == 32 && data[4] == 47 by {
      assert "GET /"[0] == 'G' && "GET /"[1] == 'E' && "GET /"[2] == 'T' && "GET /"[3] == ' ' && "GET /"[4] == '/';
      assert "get /"[0] == 'g' && "get /"[1] == 'e' && "get /"[2] == 't' && "get /"[3] == ' ' && "get /"[4] == '/';
    }
    assert Spells(data, "POST /", "post /") <==>
           |data| >= 6 && Upper(data[0]) == 80 && Upper(data[1]) == 79 && Upper(data[2]) == 83 && Upper(data[3]) == 84
           && data[4] == 32 && data[5] == 47 by {
      assert "POST /"[0] == 'P' && "POST /"[1] == 'O' && "POST /"[2] == 'S' && "POST /"[3] == 'T'
          && "POST /"[4] == ' ' && "POST /"[5] == '/';
      assert "post /"[0] == 'p' && "post /"[1] == 'o' && "post /"[2] == 's' && "post /"[3] == 't'
          && "post /"[4] == ' ' && "post /"[5] == '/';
    }
  }

  /**
    What leaves of a buffer: an isolating CONNECT tunnel gives its channel ten
    bytes of a longer request first and then the rest; the others give it all.
  */
  lemma SentTotal(s: Side, data: seq<u8>, env: Env, isolate: bool)
    ensures Sent(s, data, env, isolate) ==
            var h := if s.kind == HttpConnect && isolate && |data| > 10 && IsRequest(data)
                     then Min(10, Total(env.header)) else 0;
            h + Min(|data| - h, Total(env.body))
  {
    if |data| > 10 {
      RequestsSpell(data);
      RequestsSpell(data[..10]);
      DrainTotal(data[..10], env.header);
    }
    var h := HeaderPart(s, data, env.header, isolate);
    DrainTotal(data[h..], env.body);
    hide Drain, Total, Upper, StartsRequest;
  }

  /** The proxy's answer in letters; any byte but a line break may stand for the point. */
  lemma AcceptsText(a: seq<u8>)
    ensures Accepts(a) <==>
            && |a| >= 12
            && (forall i | 0 <= i < 6 :: a[i] as char == "HTTP/1"[i])
            && a[6] as char != '\n' && a[6] as char != '\r'
            && (a[7] as char == '0' || a[7] as char == '1')
            && (forall i | 0 <= i < 4 :: a[8 + i] as char == " 200"[i])
  {
    if |a| >= 12 {
      var h, s := a[..6], a[8..12];
      assert h[0] == a[0] && h[1] == a[1] && h[2] == a[2] && h[3] == a[3] && h[4] == a[4] && h[5] == a[5];
      assert s[0] == a[8 + 0] && s[1] == a[8 + 1] && s[2] == a[8 + 2] && s[3] == a[8 + 3];
      assert "HTTP/1"[0] == 'H' && "HTTP/1"[1] == 'T' && "HTTP/1"[2] == 'T' && "HTTP/1"[3] == 'P'
          && "HTTP/1"[4] == '/' && "HTTP/1"[5] == '1';
      assert " 200"[0] == ' ' && " 200"[1] == '2' && " 200"[2] == '0' && " 200"[3] == '0';
    }
  }

  // ---------- who is registered for what ----------

  predicate Waits(s: Side, op: Op) {
    s.key.Registered? && s.key.interest == op
  }

  /** Closed, without leftover, and off the selector. */
  predicate Gone(s: Side) {
    s.disposed && s.remain == None && s.key == Unregistered
  }

  predicate Ended(p: Pair) {
    Gone(p.local) && Gone(p.remote)
  }

  /** Nothing happens to a pair that has ended. */
  lemma {:induction false} EndedForGood(setup: Setup, p: Pair, es: seq<Event>)
    requires Ended(p) && Legal(setup, p, es)
    ensures Run(setup, p, es) == p
    decreases |es|
  {
    if es == [] {
    } else {
      EndedForGood(setup, p, es[1..]);
    }
  }

  /** After a select every registered key may be dispatched for its interest, and cancelled ones are gone. */
  lemma SelectArms(setup: Setup, p: Pair, onLocal: bool, op: Op)
    ensures var x, y := Me(p, onLocal), Me(Step(setup, p, Select), onLocal);
            && (Armed(y, op) <==> !x.disposed && Waits(x, op))
            && (Waits(y, op) <==> Waits(x, op)) && !y.key.Cancelled?
            && y.disposed == x.disposed && y.remain == x.remain
  {}

  /** A raw tunnel is up once it is connected, and both sides read. */
  lemma RawConnects(setup: Setup, p: Pair, ok: bool, env: Env)
    requires Inv(setup, p) && Enabled(p, Connectable(ok, env)) && p.remote.kind == Raw
    ensures var q := Step(setup, p, Connectable(ok, env));
            if ok then !q.local.disposed && Up(q.remote) && q.local.key == q.remote.key == Registered(Reading, None)
            else Ended(q)
  {}

  /** A CONNECT tunnel hands its request to the channel, and waits for the answer or to send the rest. */
  lemma ConnectRequests(setup: Setup, p: Pair, ok: bool, env: Env)
    requires Inv(setup, p) && Enabled(p, Connectable(ok, env)) && p.remote.kind == HttpConnect
    ensures var q := Step(setup, p, Connectable(ok, env));
            var n := Min(|setup.request|, Total(env.body));
            if !ok || |setup.request| > 20000 || env.ioError then Ended(q)
            else
              && !q.local.disposed && !Up(q.remote) && q.local.key == Unregistered && q.remote.connected
              && q.remote.accepted == setup.request[..n]
              && if n == |setup.request| then Waits(q.remote, Reading) && q.remote.remain == None
                 else Waits(q.remote, Writing) && q.remote.remain == Some(setup.request[n..])
  {
    DrainTotal(setup.request, env.body);
    hide Drain, Total;
    assert [] + setup.request == setup.request;
    assert forall n | 0 <= n <= |setup.request| :: [] + setup.request[..n] == setup.request[..n];
  }

  /** The proxy's answer opens both sides, or ends the pair. */
  lemma AnswerOpens(setup: Setup, p: Pair, data: seq<u8>, env: Env)
    requires Inv(setup, p) && Enabled(p, Readable(false, data, env)) && !Up(p.remote)
    ensures var q := Step(setup, p, Readable(false, data, env));
            if Accepts(Overlay(env.scratch, data)) then
              !q.local.disposed && Up(q.remote) && q.local.key == q.remote.key == Registered(Reading, None)
            else Ended(q)
  {
    hide Accepts, Overlay;
  }

  /** The array behind the buffer: what was read, then what it held before. */
  lemma OverlayAt(scratch: seq<u8>, data: seq<u8>, k: nat)
    ensures |Overlay(scratch, data)| == if |data| <= |scratch| then |scratch| else |data|
    ensures k < |data| ==> Overlay(scratch, data)[k] == data[k]
    ensures |data| <= k < |scratch| ==> Overlay(scratch, data)[k] == scratch[k]
  {}

  /** Forwarding, by what the brother takes. */
  lemma ForwardOutcome(x: Side, y: Side, data: seq<u8>, setup: Setup, env: Env)
    requires Armed(x, Reading)
    ensures var r := Forward(Dispatched(x), y, data, setup, env);
            var n := Sent(y, data, env, setup.isolate);
            if env.ioError || (n < |data| && y.key.Cancelled?) then r.Thrown?
            else
              && r.Fine? && r.me.remain == x.remain && r.me.disposed == x.disposed && r.brother.disposed == y.disposed
              && r.me.got == x.got + data && r.brother.accepted == y.accepted + data[..n]
              && if n == |data| then r.me.key == Registered(x.key.interest, None) && r.brother.key == y.key
                 else r.me.key.Cancelled? && r.brother.remain == Some(data[n..])
                      && r.brother.key == Registered(Writing, if y.key.Registered? then y.key.armed else None)
  {
    hide Sent;
  }

  /**
    A read of a tunnel that is up goes to the brother. If the brother takes all,
    the keys stay as they are; if not, the rest waits with it for OP_WRITE and the
    reader stops. The pair ends if the channel throws, or if the brother was
    stopped itself before in the same round.
  */
  lemma ReadForwards(setup: Setup, p: Pair, onLocal: bool, data: seq<u8>, env: Env)
    requires Inv(setup, p) && Enabled(p, Readable(onLocal, data, env)) && Up(p.remote)
    ensures var q := Step(setup, p, Readable(onLocal, data, env));
            var x, y := Me(p, onLocal), Brother(p, onLocal);
            var x1, y1 := Me(q, onLocal), Brother(q, onLocal);
            var n := Sent(y, data, env, setup.isolate);
            if env.ioError || (n < |data| && y.key.Cancelled?) then Ended(q)
            else
              && !q.local.disposed && x1.remain == x.remain
              && x1.got == x.got + data && y1.accepted == y.accepted + data[..n]
              && if n == |data| then x1.key == Registered(x.key.interest, None) && y1.key == y.key
                 else x1.key.Cancelled? && y1.remain == Some(data[n..])
                      && y1.key == Registered(Writing, if y.key.Registered? then y.key.armed else None)
  {
    hide Sent, Forward, Prologue, Conserved, BackPressure, WritingHasLeft;
    ForwardOutcome(Me(p, onLocal), Brother(p, onLocal), data, setup, env);
  }

  /**
    OP_WRITE sends leftover. If all of it leaves, the brother reads again, and this
    side's key is cancelled; otherwise it waits on. Only an exception of the channel
    ends the pair.
  */
  lemma WriteResumes(setup: Setup, p: Pair, onLocal: bool, env: Env)
    requires Inv(setup, p) && Quiet(p) && Enabled(p, Writeable(onLocal, env)) && Up(p.remote)
    ensures var q := Step(setup, p, Writeable(onLocal, env));
            var x, x1, y1 := Me(p, onLocal), Me(q, onLocal), Brother(q, onLocal);
            var n := Sent(x, Left(x), env, setup.isolate);
            if env.ioError then Ended(q)
            else
              && !q.local.disposed && x1.accepted == x.accepted + Left(x)[..n] && Left(x1) == Left(x)[n..]
              && if n == |Left(x)| then
                   x1.key.Cancelled? && y1 == Brother(p, onLocal).(key := Registered(Reading, None))
                 else x1.key == Registered(Writing, None) && y1 == Brother(p, onLocal)
  {
    hide Sent;
    var x := Me(p, onLocal);
    SentTotal(x, Left(x), env, setup.isolate);
    SentTotal(Dispatched(x), Left(x), env, setup.isolate);
  }

  /** When the connection is closed or throws, both sides end. */
  lemma CloseEnds(setup: Setup, p: Pair, onLocal: bool)
    requires Enabled(p, Closed(onLocal))
    ensures Ended(Step(setup, p, Closed(onLocal)))
  {}

  // ---------- someone always listens ----------

  /** While a side may be dispatched for OP_WRITE its brother's key is not with the selector. */
  predicate Quiet(p: Pair) {
    !p.local.disposed ==>
      && (Armed(p.local, Writing) ==> p.remote.key.Unregistered?)
      && (Armed(p.remote, Writing) && Up(p.remote) ==> p.local.key.Unregistered?)
  }

  /** A pair that is given up has ended. */
  predicate Closes(p: Pair) {
    p.local.disposed || p.remote.disposed ==> Ended(p)
  }

  lemma SettledCloses(r: Result, onLocal: bool)
    requires r.Fine? ==> !r.me.disposed && !r.brother.disposed
    ensures Closes(MakePair(Settle(r), onLocal))
  {}

  lemma ReceivedLives(me: Side, brother: Side, data: seq<u8>, setup: Setup, env: Env)
    requires data != []
    ensures var r := Received(me, brother, data, setup, env);
            r.Fine? ==> r.me.disposed == me.disposed && r.brother.disposed == brother.disposed
  {
    ForwardAnswered(me, brother, data, setup, env);
    hide Forward, Accepts, Overlay;
  }

  lemma StepCloses(setup: Setup, p: Pair, e: Event)
    requires p.local.disposed == p.remote.disposed && Closes(p) && Enabled(p, e)
    ensures Closes(Step(setup, p, e))
  {
    match e
    case Select =>
    case Connectable(ok, env) =>
      var me := Dispatched(p.remote);
      ConnectedAnswered(me, p.local, setup, env);
      SettledCloses(if ok then Connected(me, p.local, setup, env) else Thrown(me, p.local), false);
      hide Connected, Settle;
    case Readable(l, data, env) =>
      var me := Dispatched(Me(p, l));
      ReceivedLives(me, Brother(p, l), data, setup, env);
      SettledCloses(Received(me, Brother(p, l), data, setup, env), l);
      hide Received, Settle;
    case Writeable(l, env) =>
      var me := Dispatched(Me(p, l));
      WritableAnswered(me, Brother(p, l), setup, env);
      SettledCloses(Writable(me, Brother(p, l), setup, env), l);
      hide Writable, Settle;
    case Closed(l) => SettledCloses(Thrown(Me(p, l), Brother(p, l)), l);
  }

  lemma {:induction false} RunCloses(setup: Setup, p: Pair, es: seq<Event>)
    requires Inv(setup, p) && Closes(p) && Legal(setup, p, es)
    ensures Closes(Run(setup, p, es))
    decreases |es|
  {
    if es == [] {
    } else {
      StepKeeps(setup, p, es[0]);
      StepCloses(setup, p, es[0]);
      hide Step, Inv, Closes;
      RunCloses(setup, Step(setup, p, es[0]), es[1..]);
    }
  }

  /**
    Over every run: when one side is disposed both are, their leftover is gone and
    their keys are off the selector, and nothing happens to them any more.
  */
  lemma DisposedTogether(setup: Setup, kind: Kind, es: seq<Event>, more: seq<Event>)
    requires Legal(setup, Start(kind), es) && Legal(setup, Run(setup, Start(kind), es), more)
    ensures var p := Run(setup, Start(kind), es);
            p.local.disposed || p.remote.disposed ==> Ended(p) && Run(setup, p, more) == p
  {
    var p := Run(setup, Start(kind), es);
    RunCloses(setup, Start(kind), es);
    if Ended(p) {
      EndedForGood(setup, p, more);
    }
  }

  /** A pair that is up has a side that waits. */
  predicate Listening(p: Pair) {
    Up(p.remote) && !p.local.disposed ==>
      || Waits(p.local, Reading) || Waits(p.local, Writing)
      || Waits(p.remote, Reading) || Waits(p.remote, Writing)
  }

  lemma ConnectKeepsListening(setup: Setup, p: Pair, ok: bool, env: Env)
    requires Inv(setup, p) && Enabled(p, Connectable(ok, env))
    ensures var q := Step(setup, p, Connectable(ok, env)); Quiet(q) && Listening(q)
  {
    if p.remote.kind == Raw {
      RawConnects(setup, p, ok, env);
    } else {
      ConnectRequests(setup, p, ok, env);
    }
    hide Step, Inv, Total;
  }

  lemma ReadKeepsListening(setup: Setup, p: Pair, onLocal: bool, data: seq<u8>, env: Env)
    requires Inv(setup, p) && Quiet(p) && Listening(p) && Enabled(p, Readable(onLocal, data, env))
    ensures var q := Step(setup, p, Readable(onLocal, data, env)); Quiet(q) && Listening(q)
  {
    if Up(p.remote) {
      ReadForwards(setup, p, onLocal, data, env);
      StepPhase(setup, p, Readable(onLocal, data, env));
    } else {
      AnswerOpens(setup, p, data, env);
    }
    hide Step, Sent, Accepts, Overlay, Prologue, Conserved;
  }

  lemma WriteKeepsListening(setup: Setup, p: Pair, onLocal: bool, env: Env)
    requires Inv(setup, p) && Quiet(p) && Listening(p) && Enabled(p, Writeable(onLocal, env))
    ensures var q := Step(setup, p, Writeable(onLocal, env)); Quiet(q) && Listening(q)
  {
    if Up(p.remote) {
      WriteResumes(setup, p, onLocal, env);
    } else {
      StepPhase(setup, p, Writeable(onLocal, env));
    }
    hide Step, Sent, Prologue, Conserved;
  }

  /** Only the answer or the connection brings a tunnel up. */
  lemma StepPhase(setup: Setup, p: Pair, e: Event)
    requires Inv(setup, p) && Enabled(p, e) && (e.Readable? ==> Up(p.remote)) && !e.Connectable?
    ensures Up(Step(setup, p, e).remote) <==> Up(p.remote)
  {
    hide Forward, Writable;
    match e
    case Readable(onLocal, data, env) =>
      ForwardAnswered(Dispatched(Me(p, onLocal)), Brother(p, onLocal), data, setup, env);
    case Writeable(onLocal, env) => WritableAnswered(Dispatched(Me(p, onLocal)), Brother(p, onLocal), setup, env);
    case _ =>
  }

  lemma StepKeepsListening(setup: Setup, p: Pair, e: Event)
    requires Inv(setup, p) && Quiet(p) && Listening(p) && Enabled(p, e)
    ensures Quiet(Step(setup, p, e)) && Listening(Step(setup, p, e))
  {
    match e
    case Select =>
      SelectArms(setup, p, true, Writing);
      SelectArms(setup, p, false, Writing);
    case Connectable(ok, env) => ConnectKeepsListening(setup, p, ok, env);
    case Readable(onLocal, data, env) => ReadKeepsListening(setup, p, onLocal, data, env);
    case Writeable(onLocal, env) => WriteKeepsListening(setup, p, onLocal, env);
    case Closed(onLocal) => CloseEnds(setup, p, onLocal);
  }

  lemma {:induction false} RunKeepsListening(setup: Setup, p: Pair, es: seq<Event>)
    requires Inv(setup, p) && Quiet(p) && Listening(p) && Legal(setup, p, es)
    ensures var q := Run(setup, p, es); Inv(setup, q) && Quiet(q) && Listening(q)
    decreases |es|
  {
    if es == [] {
    } else {
      StepKeeps(setup, p, es[0]);
      StepKeepsListening(setup, p, es[0]);
      hide Step, Inv, Quiet, Listening;
      RunKeepsListening(setup, Step(setup, p, es[0]), es[1..]);
    }
  }

  lemma Reached(setup: Setup, kind: Kind, es: seq<Event>)
    requires Legal(setup, Start(kind), es)
    ensures var p := Run(setup, Start(kind), es); Inv(setup, p) && Quiet(p) && Listening(p)
  {
    RunKeepsListening(setup, Start(kind), es);
  }

  /** Over every run: a pair that is up and not given up always has a side that waits to read or write. */
  lemma SomeoneListens(setup: Setup, kind: Kind, es: seq<Event>)
    requires Legal(setup, Start(kind), es)
    ensures var p := Run(setup, Start(kind), es);
            Up(p.remote) && !p.local.disposed ==>
              exists onLocal, op | op != Connecting :: Waits(Me(p, onLocal), op)
  {
    Reached(setup, kind, es);
    var p := Run(setup, Start(kind), es);
    assert Me(p, true) == p.local && Me(p, false) == p.remote;
    hide Run, Waits;
  }

  /** Over every run: when the last of a side's leftover leaves, its brother waits to read again. */
  lemma DrainedResumes(setup: Setup, kind: Kind, es: seq<Event>, onLocal: bool, env: Env)
    requires Legal(setup, Start(kind), es)
    requires var p := Run(setup, Start(kind), es); Enabled(p, Writeable(onLocal, env)) && Up(p.remote)
    ensures var q := Step(setup, Run(setup, Start(kind), es), Writeable(onLocal, env));
            && (q.local.disposed <==> env.ioError)
            && (!env.ioError && Left(Me(q, onLocal)) == [] ==> Waits(Brother(q, onLocal), Reading))
  {
    Reached(setup, kind, es);
    WriteResumes(setup, Run(setup, Start(kind), es), onLocal, env);
    hide Run, Step, Sent, Inv;
  }

  // ---------- and the other side falls silent ----------

  /**
    A side that will not be read again: its leftover has taken the place of the
    interest in reading, or is gone and with it the key, and the brother has
    nothing left over whose sending would start it.
  */
  predicate Silent(p: Pair, onLocal: bool) {
    var x, y := Me(p, onLocal), Brother(p, onLocal);
    || p.local.disposed
    || (Left(x) != [] && x.key.Registered? && x.key.armed != Some(Reading))
    || (!x.key.Registered? && Left(y) == [])
  }

  lemma ReadKeepsSilent(setup: Setup, p: Pair, onLocal: bool, l: bool, data: seq<u8>, env: Env)
    requires Inv(setup, p) && Up(p.remote) && Silent(p, onLocal) && Enabled(p, Readable(l, data, env))
    ensures var q := Step(setup, p, Readable(l, data, env));
            Silent(q, onLocal) && Me(q, onLocal).got == Me(p, onLocal).got
  {
    ReadForwards(setup, p, l, data, env);
    ForwardAnswered(Dispatched(Me(p, l)), Brother(p, l), data, setup, env);
    assert l != onLocal;
    assert Me(Step(setup, p, Readable(l, data, env)), onLocal).got == Me(p, onLocal).got;
    hide Step, Forward, Sent, Prologue, Conserved, Fed, Handshake;
  }

  lemma WriteKeepsSilent(setup: Setup, p: Pair, onLocal: bool, l: bool, env: Env)
    requires Inv(setup, p) && Quiet(p) && Up(p.remote) && Silent(p, onLocal) && Enabled(p, Writeable(l, env))
    ensures var q := Step(setup, p, Writeable(l, env));
            Silent(q, onLocal) && Me(q, onLocal).got == Me(p, onLocal).got
  {
    WriteResumes(setup, p, l, env);
    WritableAnswered(Dispatched(Me(p, l)), Brother(p, l), setup, env);
    assert Me(Step(setup, p, Writeable(l, env)), onLocal).got == Me(p, onLocal).got by {
      hide Writable;
    }
    hide Step, Writable, Sent, Prologue, Conserved, Fed, Handshake;
  }

  lemma StepKeepsSilent(setup: Setup, p: Pair, onLocal: bool, e: Event)
    requires Inv(setup, p) && Quiet(p) && Up(p.remote) && Silent(p, onLocal) && Enabled(p, e)
    ensures var q := Step(setup, p, e); Silent(q, onLocal) && Me(q, onLocal).got == Me(p, onLocal).got
  {
    match e
    case Select =>
    case Readable(l, data, env) => ReadKeepsSilent(setup, p, onLocal, l, data, env);
    case Writeable(l, env) => WriteKeepsSilent(setup, p, onLocal, l, env);
    case Closed(l) =>
    case Connectable(_, _) => assert false;
  }

  /** Silence is for good. */
  lemma {:induction false} StaysSilent(setup: Setup, p: Pair, onLocal: bool, es: seq<Event>)
    requires Inv(setup, p) && Quiet(p) && Listening(p) && Up(p.remote) && Silent(p, onLocal) && Legal(setup, p, es)
    ensures Me(Run(setup, p, es), onLocal).got == Me(p, onLocal).got
    decreases |es|
  {
    if es == [] {
    } else {
      StepKeeps(setup, p, es[0]);
      StepKeepsListening(setup, p, es[0]);
      StepKeepsSilent(setup, p, onLocal, es[0]);
      StepStaysUp(setup, p, es[0]);
      hide Step, Inv, Quiet, Listening, Silent;
      StaysSilent(setup, Step(setup, p, es[0]), onLocal, es[1..]);
    }
  }

  lemma StepStaysUp(setup: Setup, p: Pair, e: Event)
    requires Inv(setup, p) && Enabled(p, e) && Up(p.remote)
    ensures Up(Step(setup, p, e).remote)
  {
    if !e.Connectable? {
      StepPhase(setup, p, e);
    }
  }

  /** An armed side is read. */
  lemma ArmedIsRead(setup: Setup, p: Pair, onLocal: bool) returns (e: Event)
    requires Inv(setup, p) && Up(p.remote) && Armed(Me(p, onLocal), Reading)
    ensures Enabled(p, e) && Me(Step(setup, p, e), onLocal).got == Me(p, onLocal).got + [0]
  {
    var env := Env([], [], [1], false);
    e := Readable(onLocal, [0], env);
    ReadForwards(setup, p, onLocal, [0], env);
    SentTotal(Brother(p, onLocal), [0], env, setup.isolate);
    assert Total([1]) == 1;
  }

  /** A side that waits to read is read after the next select. */
  lemma WaitingIsRead(setup: Setup, p: Pair, onLocal: bool) returns (es: seq<Event>)
    requires Inv(setup, p) && Up(p.remote) && !p.local.disposed && Waits(Me(p, onLocal), Reading)
    ensures Legal(setup, p, es) && Me(Run(setup, p, es), onLocal).got == Me(p, onLocal).got + [0]
  {
    StepKeeps(setup, p, Select);
    StepStaysUp(setup, p, Select);
    SelectArms(setup, p, onLocal, Reading);
    var e := ArmedIsRead(setup, Step(setup, p, Select), onLocal);
    assert Me(Step(setup, p, Select), onLocal).got == Me(p, onLocal).got;
    hide Step, Inv, Armed, Waits;
    OneEvent(setup, Step(setup, p, Select), e, []);
    OneEvent(setup, p, Select, [e]);
    es := [Select] + [e];
  }

  function WholeWrite(onLocal: bool, left: seq<u8>): Event {
    Writeable(onLocal, Env([], [10], [|left|], false))
  }

  /** A write that takes all leftover makes the brother wait to read. */
  lemma WholeWriteResumes(setup: Setup, q: Pair, onLocal: bool)
    requires Inv(setup, q) && Quiet(q) && Up(q.remote) && Armed(Brother(q, onLocal), Writing)
    ensures var e := WholeWrite(!onLocal, Left(Brother(q, onLocal)));
            && Enabled(q, e)
            && var r := Step(setup, q, e);
               !r.local.disposed && Waits(Me(r, onLocal), Reading) && Me(r, onLocal).got == Me(q, onLocal).got
  {
    var y := Brother(q, onLocal);
    var e := WholeWrite(!onLocal, Left(y));
    WriteResumes(setup, q, !onLocal, e.env);
    SentTotal(y, Left(y), e.env, setup.isolate);
    assert Total([|Left(y)|]) == |Left(y)| && Total([10]) == 10;
    hide Sent, Writable, Prologue, Conserved, BackPressure, WritingHasLeft;
  }

  /** A stopped reader is read again once its brother has sent its leftover. */
  lemma StoppedIsRead(setup: Setup, p: Pair, onLocal: bool) returns (es: seq<Event>)
    requires Inv(setup, p) && Quiet(p) && Listening(p) && Up(p.remote) && !p.local.disposed
    requires Left(Brother(p, onLocal)) != [] && !Me(p, onLocal).key.Registered?
    ensures Legal(setup, p, es) && Me(Run(setup, p, es), onLocal).got == Me(p, onLocal).got + [0]
  {
    var q := Step(setup, p, Select);
    StepKeeps(setup, p, Select);
    StepKeepsListening(setup, p, Select);
    StepStaysUp(setup, p, Select);
    assert Armed(Brother(q, onLocal), Writing) && Me(q, onLocal).got == Me(p, onLocal).got;
    hide Step, Inv, Armed, Waits, Quiet, Listening, Up;
    WholeWriteResumes(setup, q, onLocal);
    var e := WholeWrite(!onLocal, Left(Brother(q, onLocal)));
    StepKeeps(setup, q, e);
    StepStaysUp(setup, q, e);
    var more := WaitingIsRead(setup, Step(setup, q, e), onLocal);
    OneEvent(setup, q, e, more);
    OneEvent(setup, p, Select, [e] + more);
    es := [Select] + ([e] + more);
  }

  /**
    In every pair that a run has brought up, exactly the silent sides are never
    read again, whatever happens.
  */
  lemma SilentIff(setup: Setup, kind: Kind, es: seq<Event>, onLocal: bool)
    requires Legal(setup, Start(kind), es) && Up(Run(setup, Start(kind), es).remote)
    ensures var p := Run(setup, Start(kind), es);
            (forall more | Legal(setup, p, more) :: Me(Run(setup, p, more), onLocal).got == Me(p, onLocal).got)
            <==> Silent(p, onLocal)
  {
    Reached(setup, kind, es);
    var p := Run(setup, Start(kind), es);
    if Silent(p, onLocal) {
      forall more | Legal(setup, p, more)
        ensures Me(Run(setup, p, more), onLocal).got == Me(p, onLocal).got
      {
        StaysSilent(setup, p, onLocal, more);
      }
    } else {
      var more := IsReadAgain(setup, p, onLocal);
      assert |Me(Run(setup, p, more), onLocal).got| == |Me(p, onLocal).got| + 1;
    }
  }

  lemma IsReadAgain(setup: Setup, p: Pair, onLocal: bool) returns (more: seq<Event>)
    requires Inv(setup, p) && Quiet(p) && Listening(p) && Up(p.remote) && !Silent(p, onLocal)
    ensures Legal(setup, p, more) && Me(Run(setup, p, more), onLocal).got == Me(p, onLocal).got + [0]
  {
    var x := Me(p, onLocal);
    if Armed(x, Reading) {
      var e := ArmedIsRead(setup, p, onLocal);
      OneEvent(setup, p, e, []);
      more := [e];
      assert more == [e] + [];
      hide Step, Inv;
    } else if x.key.Registered? {
      more := WaitingIsRead(setup, p, onLocal);
    } else {
      more := StoppedIsRead(setup, p, onLocal);
    }
  }

  /**
    So back-pressure stops a direction for good: once a side's channel could not take
    all, then from the next select on nothing is ever read from that side, though its
    leftover is sent and its brother is read again.
  */
  lemma PressureSilences(setup: Setup, kind: Kind, es: seq<Event>, onLocal: bool, more: seq<Event>)
    requires Legal(setup, Start(kind), es)
    requires var p := Run(setup, Start(kind), es);
             && Up(p.remote) && Left(Me(p, onLocal)) != []
             && Legal(setup, Step(setup, p, Select), more)
    ensures var p := Run(setup, Start(kind), es);
            Me(Run(setup, Step(setup, p, Select), more), onLocal).got == Me(p, onLocal).got
  {
    Reached(setup, kind, es);
    var p := Run(setup, Start(kind), es);
    StepKeeps(setup, p, Select);
    StepKeepsListening(setup, p, Select);
    StepStaysUp(setup, p, Select);
    assert Silent(Step(setup, p, Select), onLocal);
    StaysSilent(setup, Step(setup, p, Select), onLocal, more);
  }
}
