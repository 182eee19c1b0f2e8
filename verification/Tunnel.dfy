/**
  Tunnel and HttpConnectTunnel as objects: each holds its brother and updates
  both. An exception is a `thrown` result; the public handlers dispose on it.
*/
module TunnelObjects {
  import opened Words
  import opened Relay

  class Tunnel {
    const kind: Kind
    const setup: Setup
    var disposed: bool
    var key: Key
    var remain: Option<seq<u8>>
    var established: bool
    var brother: Tunnel?
    ghost var connected: bool
    ghost var accepted: seq<u8>
    ghost var fed: seq<u8>
    ghost var got: seq<u8>
    ghost var heard: seq<u8>

    ghost function Snap(): Side
      reads this
    {
      Side(kind, disposed, key, remain, established, connected, accepted, fed, got, heard)
    }

    /** Both ends know each other and are open. */
    ghost predicate Paired()
      reads this, brother
    {
      && brother != null && brother != this && brother.brother == this
      && brother.setup == setup && !disposed && !brother.disposed
    }

    /** An accepted local channel, or a remote one that waits for its connection. */
    constructor (kind: Kind, setup: Setup, connecting: bool)
      ensures Snap() == (if connecting then Start(kind).remote else Start(kind).local.(kind := kind))
      ensures this.setup == setup && brother == null
    {
      this.kind, this.setup := kind, setup;
      disposed, remain, established, brother := false, None, false, null;
      key := if connecting then Registered(Connecting, None) else Unregistered;
      connected := !connecting;
      accepted, fed, got, heard := [], [], [], [];
    }

    method SetBrotherTunnel(b: Tunnel)
      modifies this`brother
      ensures brother == b
    {
      brother := b;
    }

    // ---------- channel ----------

    /** channel.register. */
    method RegisterFor(op: Op) returns (ok: bool)
      modifies this`key
      ensures ok <==> Register(old(Snap()), op).Some?
      ensures Snap() == if ok then Register(old(Snap()), op).value else old(Snap())
    {
      if key.Cancelled? {
        return false;
      }
      key := Registered(op, if key.Registered? then key.armed else None);
      return true;
    }

    /** The write loop: stops at the first call that takes nothing. */
    method WriteLoop(data: seq<u8>, takes: seq<nat>) returns (n: nat)
      modifies this`accepted
      ensures n == Drain(data, takes) && n <= |data|
      ensures Snap() == Take(old(Snap()), data, n)
    {
      hide Drain;
      n := 0;
      var k := 0;
      DrainNothing(data, takes);
      assert data[0..] == data && takes[0..] == takes && accepted + data[..0] == accepted;
      while n < |data| && k < |takes|
        invariant n <= |data| && k <= |takes|
        invariant n + Drain(data[n..], takes[k..]) == Drain(data, takes)
        invariant accepted == old(accepted) + data[..n]
        decreases |takes| - k
      {
        DrainStep(data, takes, n, k);
        var bytesSent := if takes[k] < |data| - n then takes[k] else |data| - n;
        if bytesSent == 0 {
          return;
        }
        assert data[..n] + data[n..n + bytesSent] == data[..n + bytesSent];
        accepted := accepted + data[n..n + bytesSent];
        n := n + bytesSent;
        k := k + 1;
      }
      DrainNothing(data[n..], takes[k..]);
    }

    /** beforeSend: how many bytes of a request header left on their own. */
    method BeforeSend(data: seq<u8>, takes: seq<nat>) returns (h: nat)
      modifies this`accepted
      ensures h == HeaderPart(old(Snap()), data, takes, setup.isolate) && h <= |data|
      ensures Snap() == Take(old(Snap()), data, h)
    {
      h := 0;
      if kind == HttpConnect && setup.isolate && |data| > 10 {
        if StartsRequest(data[..10]) {
          h := WriteLoop(data[..10], takes);
          assert data[..10][..h] == data[..h];
          return;
        }
      }
      assert accepted + data[..0] == accepted;
    }

    /** beforeSend followed by write: how many bytes left. */
    method SendBuffer(data: seq<u8>, env: Env) returns (n: nat)
      modifies this`accepted
      ensures n == Sent(old(Snap()), data, env, setup.isolate) && n <= |data|
      ensures Snap() == Take(old(Snap()), data, n)
    {
      var h := BeforeSend(data, env.header);
      var m := WriteLoop(data[h..], env.body);
      n := h + m;
      TakeTwice(old(accepted), data, h, m);
    }

    /** What write() does with bytes the channel would not take. */
    method KeepRest(rest: seq<u8>) returns (ok: bool)
      modifies this`key, this`remain
      ensures (Snap(), ok) == Keep(old(Snap()), rest)
    {
      remain := Some(rest);
      ok := RegisterFor(Writing);
    }

    // ---------- handlers ----------

    method OnTunnelEstablished() returns (thrown: bool)
      requires Paired()
      modifies this`key, brother`key
      ensures (if thrown then Thrown(Snap(), brother.Snap()) else Fine(Snap(), brother.Snap())) ==
              OpenBoth(old(Snap()), old(brother.Snap()))
    {
      var ok := RegisterFor(Reading);
      if !ok {
        return true;
      }
      ok := brother.RegisterFor(Reading);
      return !ok;
    }

    /** onConnected. */
    method OnConnected(env: Env) returns (thrown: bool)
      requires Paired()
      modifies this, brother`key
      ensures brother == old(brother)
      ensures (if thrown then Thrown(Snap(), brother.Snap()) else Fine(Snap(), brother.Snap())) ==
              Connected(old(Snap()), old(brother.Snap()), setup, env)
    {
      connected := true;
      if kind == Raw {
        thrown := OnTunnelEstablished();
        return;
      }
      if |setup.request| > BUFFER_SIZE {
        return true;
      }
      fed := fed + setup.request;
      var n := WriteLoop(setup.request, env.body);
      if env.ioError {
        return true;
      }
      var ok;
      if n == |setup.request| {
        ok := RegisterFor(Reading);
      } else {
        ok := KeepRest(setup.request[n..]);
      }
      return !ok;
    }

    /** onReadable, after a read that put data at the front of the shared buffer. */
    method OnReceived(data: seq<u8>, env: Env) returns (thrown: bool)
      requires Paired() && data != []
      modifies this, brother
      ensures brother == old(brother) && brother.brother == old(brother.brother)
      ensures (if thrown then Thrown(Snap(), brother.Snap()) else Fine(Snap(), brother.Snap())) ==
              Received(old(Snap()), old(brother.Snap()), data, setup, env)
    {
      if kind == HttpConnect && !established {
        heard := heard + data;
        if !Accepts(Overlay(env.scratch, data)) {
          return true;
        }
        established := true;
        thrown := OnTunnelEstablished();
        return;
      }
      thrown := ForwardToBrother(data, env);
    }

    method ForwardToBrother(data: seq<u8>, env: Env) returns (thrown: bool)
      requires Paired()
      modifies this, brother
      ensures brother == old(brother) && brother.brother == old(brother.brother)
      ensures (if thrown then Thrown(Snap(), brother.Snap()) else Fine(Snap(), brother.Snap())) ==
              Forward(old(Snap()), old(brother.Snap()), data, setup, env)
    {
      got := got + data;
      brother.fed := brother.fed + data;
      ghost var b := brother.Snap();
      assert Sent(b, data, env, setup.isolate) == Sent(old(brother.Snap()), data, env, setup.isolate);
      var n := brother.SendBuffer(data, env);
      if env.ioError {
        return true;
      }
      if n < |data| {
        var ok := brother.KeepRest(data[n..]);
        if !ok {
          return true;
        }
        key := Cancelled;
      }
      return false;
    }

    /** onWritable. */
    method OnWritableBody(env: Env) returns (thrown: bool)
      requires Paired()
      modifies this, brother`key
      ensures brother == old(brother)
      ensures (if thrown then Thrown(Snap(), brother.Snap()) else Fine(Snap(), brother.Snap())) ==
              Writable(old(Snap()), old(brother.Snap()), setup, env)
    {
      if remain.None? {
        return true;
      }
      var left := remain.value;
      var n := SendBuffer(left, env);
      remain := Some(left[n..]);
      if env.ioError {
        return true;
      }
      if n < |left| {
        return false;
      }
      key := Cancelled;
      var ok;
      if kind == Raw || established {
        ok := brother.RegisterFor(Reading);
      } else {
        ok := RegisterFor(Reading);
      }
      return !ok;
    }

    /** disposeInternal. */
    method DisposeInternal(disposeBrother: bool)
      requires !disposed && disposeBrother ==> brother != null ==> Paired()
      modifies this, if disposeBrother && brother != null then {brother} else {}
      ensures old(disposed) ==> Snap() == old(Snap())
      ensures !old(disposed) ==> Snap() == Dispose(old(Snap())) && brother == null
      ensures !old(disposed) && disposeBrother && old(brother) != null ==>
                old(brother).Snap() == Dispose(old(brother.Snap()))
      decreases disposeBrother
    {
      if disposed {
        return;
      }
      if brother != null && disposeBrother {
        brother.DisposeInternal(false);
      }
      remain, brother, key := None, null, Unregistered;
      disposed := true;
    }

    /** The selected set gives a key away once. */
    method TakeFromSelected()
      modifies this`key
      ensures Snap() == Dispatched(old(Snap()))
    {
      if key.Registered? {
        key := key.(armed := None);
      }
    }

    /** onReadable with a non-empty read. */
    method OnReadable(data: seq<u8>, env: Env)
      requires Paired() && data != []
      modifies this, brother
      ensures (Snap(), old(brother).Snap())
           == Settle(Received(Dispatched(old(Snap())), old(brother.Snap()), data, setup, env))
    {
      TakeFromSelected();
      var thrown := OnReceived(data, env);
      if thrown {
        DisposeInternal(true);
      }
    }

    /** onWritable. */
    method OnWritable(env: Env)
      requires Paired()
      modifies this, brother
      ensures (Snap(), old(brother).Snap())
           == Settle(Writable(Dispatched(old(Snap())), old(brother.Snap()), setup, env))
    {
      TakeFromSelected();
      var thrown := OnWritableBody(env);
      if thrown {
        DisposeInternal(true);
      }
    }

    /** onConnectable; ok is finishConnect(). */
    method OnConnectable(ok: bool, env: Env)
      requires Paired()
      modifies this, brother
      ensures (Snap(), old(brother).Snap()) ==
              Settle(if ok then Connected(Dispatched(old(Snap())), old(brother.Snap()), setup, env)
                     else Thrown(Dispatched(old(Snap())), old(brother.Snap())))
    {
      TakeFromSelected();
      if ok {
        var thrown := OnConnected(env);
        if thrown {
          DisposeInternal(true);
        }
      } else {
        DisposeInternal(true);
      }
    }
  }

  lemma DrainNothing(data: seq<u8>, takes: seq<nat>)
    ensures data == [] || takes == [] ==> Drain(data, takes) == 0
  {}

  /** One call of channel.write. */
  lemma DrainStep(data: seq<u8>, takes: seq<nat>, n: nat, k: nat)
    requires n < |data| && k < |takes|
    ensures var m := if takes[k] < |data| - n then takes[k] else |data| - n;
            Drain(data[n..], takes[k..]) == if m == 0 then 0 else m + Drain(data[n + m..], takes[k + 1..])
  {
    var m := if takes[k] < |data| - n then takes[k] else |data| - n;
    assert takes[k..][0] == takes[k] && takes[k..][1..] == takes[k + 1..] && data[n..][m..] == data[n + m..];
  }

  lemma TakeTwice(a: seq<u8>, data: seq<u8>, h: nat, m: nat)
    requires h + m <= |data|
    ensures (a + data[..h]) + data[h..][..m] == a + data[..h + m]
  {
    assert data[..h] + data[h..][..m] == data[..h + m];
  }
}
