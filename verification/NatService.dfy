/**
  LocalVpnService and NatSessionManager as they run: one packet buffer
  rewritten in place, one session table refreshed and swept.
*/
module NatService {
  import opened Words
  import opened Layout
  import opened Checksum
  import opened NatPacket
  import opened Nat

  /** ComputeIPChecksum; the result says whether the old checksum was right. */
  method ComputeIPChecksum(data: array<u8>) returns (same: bool)
    requires data.Length >= 80
    modifies data
    ensures data[..] == IpSealed(old(data[..]))
    ensures same <==> data[..] == old(data[..])
  {
    var oldCrc := Be16(data[..], IP_CRC);
    StoreShort(data, IP_CRC, 0);
    var newCrc := ChecksumLoop(0, data, 0, HeaderLength(data[..]));
    assert data[0..0 + HeaderLength(data[..])] == data[..HeaderLength(data[..])];
    StoreShort(data, IP_CRC, newCrc);
    same := oldCrc == newCrc;
    ghost var b := old(data[..]);
    ShortRoundTrip(PutBe(b, IP_CRC, 0), IP_CRC, newCrc);
    if same {
      assert forall k | 0 <= k < |b| :: data[..][k] == b[k];
    }
  }

  /** ComputeTCPChecksum; ok is false when the array ends before the packet. */
  method ComputeTCPChecksum(data: array<u8>) returns (ok: bool)
    requires data.Length >= 80
    modifies data
    ensures ok <==> TcpSealed(old(data[..])).Some?
    ensures ok ==> data[..] == TcpSealed(old(data[..])).value
  {
    ghost var b := data[..];
    IpSealedKeeps(b);
    var same := ComputeIPChecksum(data);
    var hl := HeaderLength(data[..]);
    var total: int := TotalLength(data[..]);
    if total < hl {
      return true;
    }
    var sum := GetSum(data, IP_SOURCE, 8);
    sum := sum + data[9];
    sum := sum + (total - hl);
    StoreShort(data, hl + TCP_CRC, 0);
    if total > data.Length {
      return false;
    }
    var newCrc := ChecksumLoop(sum, data, hl, total - hl);
    StoreShort(data, hl + TCP_CRC, newCrc);
    return true;
  }

  class Service {
    const packet: array<u8>
    const localIp: u32
    const proxyPort: u16
    var sessions: seq<Entry>

    ghost predicate Valid()
      reads this
    {
      packet.Length >= 80 && Sorted(sessions)
    }

    constructor (localIp: u32, proxyPort: u16)
      ensures Valid() && fresh(packet) && sessions == []
      ensures this.localIp == localIp && this.proxyPort == proxyPort
    {
      packet := new u8[20000];
      this.localIp, this.proxyPort := localIp, proxyPort;
      sessions := [];
    }

    function Setup(): Config {
      Config(localIp, proxyPort)
    }

    // ---------- NatSessionManager ----------

    method GetSession(key: u16, now: int) returns (s: Option<NatSession>)
      requires Valid()
      modifies this
      ensures Valid() && sessions == Touch(old(sessions), key, now) && s == Get(sessions, key)
    {
      TouchGet(sessions, key, now, key);
      var found := Get(sessions, key);
      if found.Some? {
        sessions := Put(sessions, key, found.value.(lastNanoTime := now));
      }
      s := Get(sessions, key);
    }

    /** clearExpiredSessions: walk backward, removing by position. */
    method ClearExpiredSessions(now: int)
      requires Valid()
      modifies this
      ensures Valid() && sessions == Unexpired(old(sessions), now)
    {
      UnexpiredGet(sessions, now, 0);
      var i := |sessions|;
      assert sessions[..i] == sessions && sessions[i..] == [];
      while i > 0
        invariant i <= |sessions| && i <= |old(sessions)|
        invariant sessions[..i] == old(sessions)[..i]
        invariant sessions[i..] == Unexpired(old(sessions)[i..], now)
      {
        i := i - 1;
        assert old(sessions)[i..] == [old(sessions)[i]] + old(sessions)[i + 1..];
        assert sessions[i] == sessions[..i + 1][i] == old(sessions)[i];
        if Expired(sessions[i].session, now) {
          assert (sessions[..i] + sessions[i + 1..])[i..] == sessions[i + 1..];
          assert (sessions[..i] + sessions[i + 1..])[..i] == sessions[..i + 1][..i];
          sessions := sessions[..i] + sessions[i + 1..];
        } else {
          assert sessions[i..] == [sessions[i]] + sessions[i + 1..];
          assert sessions[..i] == sessions[..i + 1][..i];
        }
        assert old(sessions)[..i + 1][..i] == old(sessions)[..i];
      }
      assert sessions[0..] == sessions && old(sessions)[0..] == old(sessions);
    }

    method CreateSession(key: u16, ip: u32, port: u16, now: int) returns (s: NatSession)
      requires Valid()
      modifies this
      ensures Valid() && sessions == Create(old(sessions), key, ip, port, now) && Get(sessions, key) == Some(s)
    {
      CreateGet(sessions, key, ip, port, now, key);
      if |sessions| > MAX_SESSION_COUNT {
        ClearExpiredSessions(now);
      }
      s := NatSession(ip, port, 0, 0, now);
      PutGet(sessions, key, s, key);
      sessions := Put(sessions, key, s);
    }

    // ---------- onIPPacketReceived ----------

    /** Seal the rewritten packet and write its first size bytes to the tun device. */
    method SealAndWrite(size: nat) returns (r: Outcome)
      requires packet.Length >= 80 && size <= packet.Length
      modifies packet
      ensures r == Send(old(packet[..]), size)
    {
      var ok := ComputeTCPChecksum(packet);
      r := if ok then Written(packet[..], size) else Crashed;
    }

    method FromLocalServer(size: nat, now: int) returns (r: Outcome)
      requires Valid() && size <= packet.Length && FromServer(Setup(), packet[..])
      modifies this, packet
      ensures Valid() && (sessions, r) == Receive(Setup(), old(sessions), old(packet[..]), size, now)
    {
      ghost var b := packet[..];
      var session := GetSession(DestinationPort(packet[..]), now);
      if session.None? {
        return Dropped;
      }
      var hl := HeaderLength(packet[..]);
      StoreInt(packet, IP_SOURCE, DestinationIp(packet[..]));
      StoreShort(packet, hl, session.value.remotePort);
      StoreInt(packet, IP_DESTINATION, localIp);
      assert packet[..] == RewriteIn(b, localIp, session.value.remotePort);
      r := SealAndWrite(size);
    }

    /** Source is the remote end, destination the local server. */
    method RewriteToServer()
      requires packet.Length >= 80
      modifies packet
      ensures packet[..] == RewriteOut(old(packet[..]), localIp, proxyPort)
    {
      var hl := HeaderLength(packet[..]);
      StoreInt(packet, IP_SOURCE, DestinationIp(packet[..]));
      StoreInt(packet, IP_DESTINATION, localIp);
      StoreShort(packet, hl + 2, proxyPort);
    }

    method FromLocalApp(size: nat, now: int) returns (r: Outcome)
      requires Valid() && size <= packet.Length && FromApp(Setup(), packet[..])
      modifies this, packet
      ensures Valid() && (sessions, r) == Receive(Setup(), old(sessions), old(packet[..]), size, now)
    {
      ghost var b := packet[..];
      var key := SourcePort(packet[..]);
      var found := GetSession(key, now);
      var session: NatSession;
      if found.None? || found.value.remoteIp != DestinationIp(packet[..])
        || found.value.remotePort != DestinationPort(packet[..]) {
        session := CreateSession(key, DestinationIp(packet[..]), DestinationPort(packet[..]), now);
      } else {
        session := found.value;
      }
      ghost var t := sessions;
      assert t == Outbound(old(sessions), b, now) && Get(t, key) == Some(session);
      hide Outbound, Touch, Create, Put, Get, Sorted;
      ForwardedGet(Setup(), t, b, size, now, key);
      var bytes := DataSize(packet[..]);
      if session.packetSent + 1 == 2 && bytes == 0 {
        sessions := Put(sessions, key, Account(session, now, 0));
        return Dropped;
      }
      RewriteToServer();
      r := SealAndWrite(size);
      sessions := Put(sessions, key, Account(session, now, if r.Written? then bytes else 0));
    }

    /** onIPPacketReceived. */
    method OnIPPacketReceived(size: nat, now: int) returns (r: Outcome)
      requires Valid() && size <= packet.Length
      modifies this, packet
      ensures Valid() && (sessions, r) == Receive(Setup(), old(sessions), old(packet[..]), size, now)
    {
      if packet[9] != TCP || SourceIp(packet[..]) != localIp {
        return Ignored;
      }
      if SourcePort(packet[..]) == proxyPort {
        r := FromLocalServer(size, now);
      } else {
        r := FromLocalApp(size, now);
      }
    }
  }
}
